/** The progress line `downloadAllFiles` reports before each file:
    `Downloading (<index> of <total>):[<name>]`, with `index` counted from 1. */
module Progress {
  import opened Decimal
  import opened Ftp

  datatype Option<T> = None | Some(value: T)

  /** What one progress line says. */
  datatype Line = Line(index: nat, total: nat, name: string)

  const Head := "Downloading ("
  const Between := " of "
  const NameStart := "):["
  const Tail := "]"

  /** `String.format("Downloading (%d of %d):[%s]", index, total, name)`. */
  function Message(index: nat, total: nat, name: string): string {
    Head + Dec(index) + Between + Dec(total) + NameStart + name + Tail
  }

  /** The lines of the first files, spelled out. */
  lemma MessageLiteral(index: nat, total: nat, name: string)
    requires 1 <= index <= total <= 9
    ensures Message(index, total, name)
         == "Downloading (" + [Dec(index)[0]] + " of " + [Dec(total)[0]] + "):[" + name + "]"
  {
  }

  /** Reads a progress line back; None for any string that is not one. */
  function Parse(m: string): (r: Option<Line>)
    ensures r.Some? ==> StartsWith(m, Head)
  {
    if !StartsWith(m, Head) then None else ParseIndex(m[|Head|..])
  }

  /** Reads `<index> of <total>):[<name>]`. */
  function ParseIndex(a: string): Option<Line> {
    var k := LeadingDigits(a);
    if k == 0 || !StartsWith(a[k..], Between) then None
    else
      match ParseTotal(a[k..][|Between|..])
      case None => None
      case Some(rest) => Some(Line(Value(a[..k]), rest.0, rest.1))
  }

  /** Reads `<total>):[<name>]`. */
  function ParseTotal(c: string): Option<(nat, string)> {
    var j := LeadingDigits(c);
    if j == 0 then None
    else
      match ParseName(c[j..])
      case None => None
      case Some(name) => Some((Value(c[..j]), name))
  }

  /** Reads `):[<name>]`. */
  function ParseName(d: string): Option<string> {
    if |d| < |NameStart| + |Tail| || !StartsWith(d, NameStart) || d[|d| - 1] != ']' then None
    else Some(d[|NameStart|..|d| - 1])
  }

  lemma ParseNameOf(name: string)
    ensures ParseName(NameStart + name + Tail) == Some(name)
  {
    var d := NameStart + name + Tail;
    assert d[..|NameStart|] == NameStart;
    assert d[|NameStart|..|d| - 1] == name;
  }

  lemma ParseTotalOf(total: nat, d: string, name: string)
    requires d == NameStart + name + Tail
    ensures ParseTotal(Dec(total) + d) == Some((total, name))
  {
    var dt := Dec(total);
    var c := dt + d;
    LeadingDigitsOfDigitsThen(dt, d);
    assert c[..|dt|] == dt;
    assert c[|dt|..] == d;
    ParseNameOf(name);
    ValueOfDec(total);
  }

  lemma ParseIndexOf(index: nat, total: nat, c: string, name: string)
    requires ParseTotal(c) == Some((total, name))
    ensures ParseIndex(Dec(index) + (Between + c)) == Some(Line(index, total, name))
  {
    var di := Dec(index);
    var b := Between + c;
    var a := di + b;
    LeadingDigitsOfDigitsThen(di, b);
    assert a[..|di|] == di;
    assert a[|di|..] == b;
    assert b[..|Between|] == Between;
    assert b[|Between|..] == c;
    ValueOfDec(index);
  }

  /** Every progress line reads back as the index, total and name it was made from. */
  lemma ParseMessage(index: nat, total: nat, name: string)
    ensures Parse(Message(index, total, name)) == Some(Line(index, total, name))
  {
    var d := NameStart + name + Tail;
    var c := Dec(total) + d;
    var a := Dec(index) + (Between + c);
    ParseTotalOf(total, d, name);
    ParseIndexOf(index, total, c, name);
    MessageShape(index, total, name, a);
    assert Message(index, total, name)[|Head|..] == a;
  }

  lemma MessageShape(index: nat, total: nat, name: string, a: string)
    requires a == Dec(index) + (Between + (Dec(total) + (NameStart + name + Tail)))
    ensures Message(index, total, name) == Head + a
  {
  }

  /** Two files never share a progress line: the line determines the index,
      the total and the name. */
  lemma MessageInjective(i: nat, n: nat, a: string, j: nat, m: nat, b: string)
    requires Message(i, n, a) == Message(j, m, b)
    ensures i == j && n == m && a == b
  {
    ParseMessage(i, n, a);
    ParseMessage(j, m, b);
  }
}
