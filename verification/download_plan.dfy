/** What downloadAllFiles does with a listing, stated through the calls it
    makes rather than through its loop: which entries it keeps, the progress
    lines, sink requests and retrieves it issues (each in listing order), where
    it stops, and how each sink it is handed is closed before anything else. */
module DownloadPlan {
  import opened Ftp
  import FtpClient
  import Progress
  import Decimal

  // ---------------------------------------------------------------------------
  // Which entries are kept

  /** The positions of the file entries of a listing, in increasing order. */
  function FileIndices(entries: seq<Entry>): (idx: seq<nat>)
    ensures forall k :: 0 <= k < |idx| ==> idx[k] < |entries|
  {
    if |entries| == 0 then []
    else
      var n := |entries| - 1;
      FileIndices(entries[..n]) + (if entries[n].IsFile() then [n] else [])
  }

  /** getName of the entries at `idx`, in listing order, are exactly the
      names downloadAllFiles keeps: every file entry, and nothing else. */
  lemma {:induction false} FileNamesAreFiles(entries: seq<Entry>)
    ensures var names, idx := FtpClient.FileNames(entries), FileIndices(entries);
            && |idx| == |names|
            && (forall k :: 0 <= k < |idx| ==> entries[idx[k]].IsFile() && names[k] == entries[idx[k]].name)
            && (forall k, l :: 0 <= k < l < |idx| ==> idx[k] < idx[l])
            && (forall i :: 0 <= i < |entries| && entries[i].IsFile() ==> i in idx)
    decreases |entries|
  {
    if |entries| > 0 {
      var n := |entries| - 1;
      var front := entries[..n];
      FileNamesAreFiles(front);
      assert forall i :: 0 <= i < n ==> front[i] == entries[i];
    }
  }

  // ---------------------------------------------------------------------------
  // Projections of a trace

  /** What `pick` takes from each call of `t`, in order. */
  function Picks<T>(t: seq<Event>, pick: Event -> seq<T>): seq<T>
    decreases |t|
  {
    if |t| == 0 then [] else pick(t[0]) + Picks(t[1..], pick)
  }

  lemma {:induction false} PicksAppend<T>(a: seq<Event>, b: seq<Event>, pick: Event -> seq<T>)
    ensures Picks(a + b, pick) == Picks(a, pick) + Picks(b, pick)
    decreases |a|
  {
    if |a| == 0 {
      assert a + b == b;
    } else {
      assert (a + b)[0] == a[0];
      assert (a + b)[1..] == a[1..] + b;
      PicksAppend(a[1..], b, pick);
    }
  }

  function ReportOf(e: Event): seq<string> {
    if e.Report? then [e.message] else []
  }

  function RequestOf(e: Event): seq<Path> {
    if e.RequestSink? then [e.name] else []
  }

  function RetrievalOf(e: Event): seq<Path> {
    if e.RetrieveFile? then [e.path] else []
  }

  /** The messages given to the progress reporter. */
  function Reports(t: seq<Event>): seq<string> {
    Picks(t, ReportOf)
  }

  /** The names given to the sink provider. */
  function Requests(t: seq<Event>): seq<Path> {
    Picks(t, RequestOf)
  }

  /** The remote paths given to retrieveFile. */
  function Retrievals(t: seq<Event>): seq<Path> {
    Picks(t, RetrievalOf)
  }

  // ---------------------------------------------------------------------------
  // The plan for a list of file names

  /** The progress line of each of the N files, "Downloading (i of N):[name_i]" for i = 1..N. */
  function Plan(names: seq<string>): (lines: seq<string>)
    ensures |lines| == |names|
  {
    seq(|names|, i requires 0 <= i < |names| => Progress.Message(i + 1, |names|, names[i]))
  }

  /** The remote path of each file: the directory resolved against its name. */
  function Targets(resolve: (Path, string) -> Path, dir: Path, names: seq<string>): (paths: seq<Path>)
    ensures |paths| == |names|
  {
    seq(|names|, i requires 0 <= i < |names| => resolve(dir, names[i]))
  }

  /** The pass for a file ends without an exception: the provider hands out a
      sink, retrieve returns (true or false alike) and the sink closes. */
  predicate Completes(lib: Library, sinks: FtpClient.SinkProvider, resolve: (Path, string) -> Path,
                      dir: Path, name: string) {
    && sinks.open(name).Returns?
    && lib.retrieveFile(resolve(dir, name), sinks.open(name).value).Returns?
    && sinks.close(sinks.open(name).value).Returns?
  }

  /** The exception a pass that does not complete ends with: the provider's,
      else retrieve's, else close's. */
  function PassError(lib: Library, sinks: FtpClient.SinkProvider, resolve: (Path, string) -> Path,
                     dir: Path, name: string): Exception
    requires !Completes(lib, sinks, resolve, dir, name)
  {
    if sinks.open(name).Throws? then sinks.open(name).error
    else if lib.retrieveFile(resolve(dir, name), sinks.open(name).value).Throws? then
      lib.retrieveFile(resolve(dir, name), sinks.open(name).value).error
    else sinks.close(sinks.open(name).value).error
  }

  /** How one pass ends. */
  lemma OnePassOutcome(lib: Library, sinks: FtpClient.SinkProvider, resolve: (Path, string) -> Path,
                       dir: Path, i: nat, total: nat, name: string)
    ensures FtpClient.TransferOne(lib, sinks, resolve, dir, i, total, name).outcome
         == if Completes(lib, sinks, resolve, dir, name) then Returns(())
            else Throws(PassError(lib, sinks, resolve, dir, name))
  {
  }

  /** Starting at file `k`, a loop ending with `outcome` after `m` passes
      stopped where it had to: it ran to the end exactly when every pass
      completes, and otherwise its last pass is the first one that does not,
      whose exception it ends with. */
  ghost predicate StopsAt(lib: Library, sinks: FtpClient.SinkProvider, resolve: (Path, string) -> Path,
                          dir: Path, names: seq<string>, k: nat, outcome: Answer<()>, m: nat)
    requires k <= |names|
  {
    && (outcome.Returns? <==> forall j :: k <= j < |names| ==> Completes(lib, sinks, resolve, dir, names[j]))
    && (outcome.Returns? ==> k + m == |names|)
    && (outcome.Throws? ==>
          && 1 <= m && k + m <= |names|
          && !Completes(lib, sinks, resolve, dir, names[k + m - 1])
          && outcome == Throws(PassError(lib, sinks, resolve, dir, names[k + m - 1]))
          && forall j :: k <= j < k + m - 1 ==> Completes(lib, sinks, resolve, dir, names[j]))
  }

  lemma PicksCons<T>(e: Event, t: seq<Event>, pick: Event -> seq<T>)
    ensures Picks([e] + t, pick) == pick(e) + Picks(t, pick)
  {
    assert ([e] + t)[1..] == t;
  }

  lemma PicksOfTwo<T>(a: Event, b: Event, pick: Event -> seq<T>)
    ensures Picks([a, b], pick) == pick(a) + pick(b)
  {
    PicksCons(a, [b], pick);
    PicksCons(b, [], pick);
    assert [a, b] == [a] + [b];
    assert [b] == [b] + [];
  }

  lemma PicksOfFour<T>(a: Event, b: Event, c: Event, d: Event, pick: Event -> seq<T>)
    ensures Picks([a, b, c, d], pick) == pick(a) + pick(b) + pick(c) + pick(d)
  {
    PicksOfTwo(a, b, pick);
    PicksOfTwo(c, d, pick);
    PicksAppend([a, b], [c, d], pick);
    assert [a, b, c, d] == [a, b] + [c, d];
  }

  /** What one pass reports, requests and retrieves. */
  lemma OnePass(lib: Library, sinks: FtpClient.SinkProvider, resolve: (Path, string) -> Path,
                dir: Path, i: nat, total: nat, name: string)
    ensures var t := FtpClient.TransferOne(lib, sinks, resolve, dir, i, total, name).trace;
            && Reports(t) == [Progress.Message(i + 1, total, name)]
            && Requests(t) == [name]
            && Retrievals(t) == (if sinks.open(name).Returns? then [resolve(dir, name)] else [])
  {
    var t := FtpClient.TransferOne(lib, sinks, resolve, dir, i, total, name).trace;
    if |t| == 2 {
      assert t == [t[0], t[1]];
      PicksOfTwo(t[0], t[1], ReportOf);
      PicksOfTwo(t[0], t[1], RequestOf);
      PicksOfTwo(t[0], t[1], RetrievalOf);
    } else {
      assert t == [t[0], t[1], t[2], t[3]];
      PicksOfFour(t[0], t[1], t[2], t[3], ReportOf);
      PicksOfFour(t[0], t[1], t[2], t[3], RequestOf);
      PicksOfFour(t[0], t[1], t[2], t[3], RetrievalOf);
    }
  }

  /** A one-element head followed by the next slice is the longer slice. */
  lemma SliceCons<T>(s: seq<T>, k: nat, m: nat, head: seq<T>, tail: seq<T>)
    requires k + 1 + m <= |s|
    requires head == [s[k]] && tail == s[k + 1..k + 1 + m]
    ensures head + tail == s[k..k + 1 + m]
  {
    assert s[k..k + 1 + m] == [s[k]] + s[k + 1..k + 1 + m];
  }

  /** Starting at file `k`, a loop that made `m` passes reported the progress
      lines of files k..k+m-1 and asked for their sinks, in order. */
  ghost predicate FollowsPlan(names: seq<string>, k: nat, m: nat, reports: seq<string>, requests: seq<Path>)
    requires k <= |names|
  {
    && k + m <= |names|
    && reports == Plan(names)[k..k + m]
    && requests == names[k..k + m]
  }

  /** The plan facts for one completed pass followed by the rest of the loop. */
  lemma FollowPlanStep(names: seq<string>, k: nat, first: seq<Event>, rest: seq<Event>)
    requires k < |names|
    requires Reports(first) == [Plan(names)[k]] && Requests(first) == [names[k]]
    requires FollowsPlan(names, k + 1, |Reports(rest)|, Reports(rest), Requests(rest))
    ensures |Reports(first + rest)| == 1 + |Reports(rest)|
    ensures FollowsPlan(names, k, |Reports(first + rest)|, Reports(first + rest), Requests(first + rest))
  {
    PicksAppend(first, rest, ReportOf);
    PicksAppend(first, rest, RequestOf);
    var m := |Reports(rest)|;
    SliceCons(Plan(names), k, m, Reports(first), Reports(rest));
    SliceCons(names, k, m, Requests(first), Requests(rest));
  }

  /** The plan facts for a loop whose first pass throws. */
  lemma FollowPlanLast(names: seq<string>, k: nat, first: seq<Event>)
    requires k < |names|
    requires Reports(first) == [Plan(names)[k]] && Requests(first) == [names[k]]
    ensures FollowsPlan(names, k, 1, Reports(first), Requests(first))
  {
    assert Plan(names)[k..k + 1] == [Plan(names)[k]];
    assert names[k..k + 1] == [names[k]];
  }

  /** Transfers unfolded once. */
  lemma TransfersUnfold(lib: Library, sinks: FtpClient.SinkProvider, resolve: (Path, string) -> Path,
                        dir: Path, names: seq<string>, k: nat)
    requires k < |names|
    ensures var step := FtpClient.TransferOne(lib, sinks, resolve, dir, k, |names|, names[k]);
            var rest := FtpClient.Transfers(lib, sinks, resolve, dir, names, k + 1);
            FtpClient.Transfers(lib, sinks, resolve, dir, names, k)
              == if step.outcome.Throws? then step else Run(step.trace + rest.trace, rest.outcome)
  {
  }

  /** From file `k` on: the passes made are those of files k, k+1, ... in
      order, each reporting its progress line and asking for its sink. */
  lemma {:induction false} TransfersFollowPlan(lib: Library, sinks: FtpClient.SinkProvider,
                                               resolve: (Path, string) -> Path,
                                               dir: Path, names: seq<string>, k: nat)
    requires k <= |names|
    ensures var t := FtpClient.Transfers(lib, sinks, resolve, dir, names, k).trace;
            FollowsPlan(names, k, |Reports(t)|, Reports(t), Requests(t))
    decreases |names| - k
  {
    var t := FtpClient.Transfers(lib, sinks, resolve, dir, names, k).trace;
    if k == |names| {
      assert Reports(t) == [];
      assert Requests(t) == [];
    } else {
      var step := FtpClient.TransferOne(lib, sinks, resolve, dir, k, |names|, names[k]);
      TransfersUnfold(lib, sinks, resolve, dir, names, k);
      OnePass(lib, sinks, resolve, dir, k, |names|, names[k]);
      assert Plan(names)[k] == Progress.Message(k + 1, |names|, names[k]);
      if step.outcome.Throws? {
        FollowPlanLast(names, k, step.trace);
      } else {
        var rest := FtpClient.Transfers(lib, sinks, resolve, dir, names, k + 1);
        TransfersFollowPlan(lib, sinks, resolve, dir, names, k + 1);
        FollowPlanStep(names, k, step.trace, rest.trace);
      }
    }
  }

  /** A completed pass in front of a loop that stops where it has to also
      stops where it has to. */
  lemma StopsAtStep(lib: Library, sinks: FtpClient.SinkProvider, resolve: (Path, string) -> Path,
                    dir: Path, names: seq<string>, k: nat, outcome: Answer<()>, m: nat)
    requires k < |names|
    requires Completes(lib, sinks, resolve, dir, names[k])
    requires StopsAt(lib, sinks, resolve, dir, names, k + 1, outcome, m)
    ensures StopsAt(lib, sinks, resolve, dir, names, k, outcome, m + 1)
  {
    if outcome.Returns? {
      assert forall j :: k <= j < |names| ==> Completes(lib, sinks, resolve, dir, names[j]);
    } else {
      assert !Completes(lib, sinks, resolve, dir, names[k + m]);
    }
  }

  /** From file `k` on: the loop runs to the end exactly when no pass throws;
      otherwise the last pass made is the first one that throws, and the
      loop ends with its exception. */
  lemma {:induction false} TransfersStop(lib: Library, sinks: FtpClient.SinkProvider,
                                         resolve: (Path, string) -> Path,
                                         dir: Path, names: seq<string>, k: nat)
    requires k <= |names|
    ensures var r := FtpClient.Transfers(lib, sinks, resolve, dir, names, k);
            StopsAt(lib, sinks, resolve, dir, names, k, r.outcome, |Reports(r.trace)|)
    decreases |names| - k
  {
    if k < |names| {
      var step := FtpClient.TransferOne(lib, sinks, resolve, dir, k, |names|, names[k]);
      TransfersUnfold(lib, sinks, resolve, dir, names, k);
      OnePass(lib, sinks, resolve, dir, k, |names|, names[k]);
      OnePassOutcome(lib, sinks, resolve, dir, k, |names|, names[k]);
      if step.outcome.Returns? {
        var rest := FtpClient.Transfers(lib, sinks, resolve, dir, names, k + 1);
        TransfersStop(lib, sinks, resolve, dir, names, k + 1);
        PicksAppend(step.trace, rest.trace, ReportOf);
        StopsAtStep(lib, sinks, resolve, dir, names, k, rest.outcome, |Reports(rest.trace)|);
      }
    }
  }

  /** The paths retrieved by a loop from file `k` that made `m` passes and
      ended with `outcome`: every file's target, in order, except that the
      last file of a loop that threw is left out when its sink could not be had. */
  ghost predicate RetrievesTargets(sinks: FtpClient.SinkProvider, targets: seq<Path>, names: seq<string>,
                                   k: nat, outcome: Answer<()>, m: nat, retrieved: seq<Path>)
    requires |targets| == |names| && k <= |names|
  {
    && (outcome.Returns? ==> retrieved == targets[k..])
    && (outcome.Throws? ==>
          && 1 <= m && k + m <= |names|
          && retrieved == targets[k..k + m - 1]
                          + (if sinks.open(names[k + m - 1]).Returns? then [targets[k + m - 1]] else []))
  }

  lemma RetrievesTargetsStep(sinks: FtpClient.SinkProvider, targets: seq<Path>, names: seq<string>,
                             k: nat, outcome: Answer<()>, m: nat, rest: seq<Path>)
    requires |targets| == |names| && k < |names|
    requires RetrievesTargets(sinks, targets, names, k + 1, outcome, m, rest)
    ensures RetrievesTargets(sinks, targets, names, k, outcome, m + 1, [targets[k]] + rest)
  {
    if outcome.Returns? {
      assert targets[k..] == [targets[k]] + targets[k + 1..];
    } else {
      assert targets[k..k + m] == [targets[k]] + targets[k + 1..k + 1 + m - 1];
    }
  }

  /** From file `k` on: the remote paths retrieved are those of the files
      attempted, in order; only a file whose sink could not be had is not retrieved. */
  lemma {:induction false} TransfersRetrieve(lib: Library, sinks: FtpClient.SinkProvider,
                                             resolve: (Path, string) -> Path,
                                             dir: Path, names: seq<string>, k: nat)
    requires k <= |names|
    ensures var r := FtpClient.Transfers(lib, sinks, resolve, dir, names, k);
            RetrievesTargets(sinks, Targets(resolve, dir, names), names, k, r.outcome,
                             |Reports(r.trace)|, Retrievals(r.trace))
    decreases |names| - k
  {
    var targets := Targets(resolve, dir, names);
    if k == |names| {
      assert Retrievals([]) == [];
    } else {
      var step := FtpClient.TransferOne(lib, sinks, resolve, dir, k, |names|, names[k]);
      TransfersUnfold(lib, sinks, resolve, dir, names, k);
      OnePass(lib, sinks, resolve, dir, k, |names|, names[k]);
      assert targets[k] == resolve(dir, names[k]);
      if step.outcome.Returns? {
        var rest := FtpClient.Transfers(lib, sinks, resolve, dir, names, k + 1);
        TransfersRetrieve(lib, sinks, resolve, dir, names, k + 1);
        PicksAppend(step.trace, rest.trace, ReportOf);
        PicksAppend(step.trace, rest.trace, RetrievalOf);
        RetrievesTargetsStep(sinks, targets, names, k, rest.outcome, |Reports(rest.trace)|, Retrievals(rest.trace));
      } else {
        assert targets[k..k] == [];
      }
    }
  }

  /** downloadAllFiles over a listing it obtained: the progress lines and the
      sink requests follow the file entries in listing order, the loop runs to
      the end exactly when every pass completes, and otherwise it stops right
      after the first pass that does not, with that pass's exception. */
  lemma DownloadFollowsPlan(lib: Library, sinks: FtpClient.SinkProvider, resolve: (Path, string) -> Path, dir: Path)
    requires lib.listFiles(dir).Returns?
    ensures var names := FtpClient.FileNames(lib.listFiles(dir).value);
            var r := FtpClient.DownloadAllFiles(lib, sinks, resolve, dir);
            var m := |Reports(r.trace)|;
            && FollowsPlan(names, 0, m, Reports(r.trace), Requests(r.trace))
            && StopsAt(lib, sinks, resolve, dir, names, 0, r.outcome, m)
  {
    var names := FtpClient.FileNames(lib.listFiles(dir).value);
    var rest := FtpClient.Transfers(lib, sinks, resolve, dir, names, 0);
    TransfersFollowPlan(lib, sinks, resolve, dir, names, 0);
    TransfersStop(lib, sinks, resolve, dir, names, 0);
    PicksAppend([ListFiles(dir)], rest.trace, ReportOf);
    PicksAppend([ListFiles(dir)], rest.trace, RequestOf);
  }

  /** A downloadAllFiles that returns reported "Downloading (i of N):[name_i]"
      for i = 1..N, asked for a sink for each bare name and retrieved each
      `dir` resolved against the name, once each, in listing order. */
  lemma DownloadSucceeds(lib: Library, sinks: FtpClient.SinkProvider, resolve: (Path, string) -> Path, dir: Path)
    requires FtpClient.DownloadAllFiles(lib, sinks, resolve, dir).outcome.Returns?
    ensures lib.listFiles(dir).Returns?
    ensures var names := FtpClient.FileNames(lib.listFiles(dir).value);
            var t := FtpClient.DownloadAllFiles(lib, sinks, resolve, dir).trace;
            && Reports(t) == Plan(names)
            && Requests(t) == names
            && Retrievals(t) == Targets(resolve, dir, names)
  {
    DownloadReportsPlan(lib, sinks, resolve, dir);
    DownloadRetrievesTargets(lib, sinks, resolve, dir);
  }

  lemma DownloadReportsPlan(lib: Library, sinks: FtpClient.SinkProvider, resolve: (Path, string) -> Path, dir: Path)
    requires lib.listFiles(dir).Returns?
    requires FtpClient.DownloadAllFiles(lib, sinks, resolve, dir).outcome.Returns?
    ensures var names := FtpClient.FileNames(lib.listFiles(dir).value);
            var t := FtpClient.DownloadAllFiles(lib, sinks, resolve, dir).trace;
            Reports(t) == Plan(names) && Requests(t) == names
  {
    var names := FtpClient.FileNames(lib.listFiles(dir).value);
    DownloadFollowsPlan(lib, sinks, resolve, dir);
    assert Plan(names)[0..|names|] == Plan(names);
    assert names[0..|names|] == names;
  }

  lemma DownloadRetrievesTargets(lib: Library, sinks: FtpClient.SinkProvider, resolve: (Path, string) -> Path, dir: Path)
    requires lib.listFiles(dir).Returns?
    requires FtpClient.DownloadAllFiles(lib, sinks, resolve, dir).outcome.Returns?
    ensures var names := FtpClient.FileNames(lib.listFiles(dir).value);
            Retrievals(FtpClient.DownloadAllFiles(lib, sinks, resolve, dir).trace) == Targets(resolve, dir, names)
  {
    var names := FtpClient.FileNames(lib.listFiles(dir).value);
    var rest := FtpClient.Transfers(lib, sinks, resolve, dir, names, 0);
    TransfersRetrieve(lib, sinks, resolve, dir, names, 0);
    PicksAppend([ListFiles(dir)], rest.trace, RetrievalOf);
    assert Targets(resolve, dir, names)[0..] == Targets(resolve, dir, names);
  }

  // ---------------------------------------------------------------------------
  // Scoped sinks

  /** Where the loop stands with respect to sinks: between files (Idle), after
      the progress line (Announced), after asking for a sink for `name`
      (Requested), while `sink` holds the retrieved file (Filling). Any call
      out of this order is Misused. */
  datatype Slot = Idle | Announced | Requested(name: string) | Filling(sink: Sink) | Misused

  function SlotStep(sinks: FtpClient.SinkProvider, resolve: (Path, string) -> Path, dir: Path,
                    s: Slot, e: Event): Slot {
    match s
    case Idle => if e.Report? then Announced else Misused
    case Announced => if e.RequestSink? then Requested(e.name) else Misused
    case Requested(name) =>
      if e.RetrieveFile? && sinks.open(name) == Returns(e.sink) && e.path == resolve(dir, name)
      then Filling(e.sink) else Misused
    case Filling(sink) => if e == CloseSink(sink) then Idle else Misused
    case Misused => Misused
  }

  function SlotWalk(sinks: FtpClient.SinkProvider, resolve: (Path, string) -> Path, dir: Path,
                    s: Slot, t: seq<Event>): Slot
    decreases |t|
  {
    if |t| == 0 then s else SlotWalk(sinks, resolve, dir, SlotStep(sinks, resolve, dir, s, t[0]), t[1..])
  }

  lemma {:induction false} SlotWalkAppend(sinks: FtpClient.SinkProvider, resolve: (Path, string) -> Path,
                                          dir: Path, s: Slot, a: seq<Event>, b: seq<Event>)
    ensures SlotWalk(sinks, resolve, dir, s, a + b)
         == SlotWalk(sinks, resolve, dir, SlotWalk(sinks, resolve, dir, s, a), b)
    decreases |a|
  {
    if |a| == 0 {
      assert a + b == b;
    } else {
      assert (a + b)[0] == a[0];
      assert (a + b)[1..] == a[1..] + b;
      SlotWalkAppend(sinks, resolve, dir, SlotStep(sinks, resolve, dir, s, a[0]), a[1..], b);
    }
  }

  /** One pass, from Idle: back to Idle once the sink it was handed is closed,
      or left at Requested when the provider threw and there is nothing to close. */
  lemma OnePassScoped(lib: Library, sinks: FtpClient.SinkProvider, resolve: (Path, string) -> Path,
                      dir: Path, i: nat, total: nat, name: string)
    ensures var t := FtpClient.TransferOne(lib, sinks, resolve, dir, i, total, name).trace;
            var end := SlotWalk(sinks, resolve, dir, Idle, t);
            end == (if sinks.open(name).Returns? then Idle else Requested(name))
  {
    var t := FtpClient.TransferOne(lib, sinks, resolve, dir, i, total, name).trace;
    assert SlotWalk(sinks, resolve, dir, Idle, t) == SlotWalk(sinks, resolve, dir, Announced, t[1..]);
    assert SlotWalk(sinks, resolve, dir, Announced, t[1..]) == SlotWalk(sinks, resolve, dir, Requested(name), t[2..]);
    if |t| == 4 {
      var sink := sinks.open(name).value;
      assert SlotWalk(sinks, resolve, dir, Requested(name), t[2..]) == SlotWalk(sinks, resolve, dir, Filling(sink), t[3..]);
      assert SlotWalk(sinks, resolve, dir, Filling(sink), t[3..]) == SlotWalk(sinks, resolve, dir, Idle, t[4..]);
    }
  }

  lemma {:induction false} TransfersScoped(lib: Library, sinks: FtpClient.SinkProvider,
                                           resolve: (Path, string) -> Path,
                                           dir: Path, names: seq<string>, k: nat)
    requires k <= |names|
    ensures var r := FtpClient.Transfers(lib, sinks, resolve, dir, names, k);
            var end := SlotWalk(sinks, resolve, dir, Idle, r.trace);
            || end == Idle
            || (end.Requested? && r.outcome.Throws? && sinks.open(end.name).Throws? && r.outcome == Throws(sinks.open(end.name).error))
    decreases |names| - k
  {
    if k < |names| {
      var step := FtpClient.TransferOne(lib, sinks, resolve, dir, k, |names|, names[k]);
      OnePassScoped(lib, sinks, resolve, dir, k, |names|, names[k]);
      if step.outcome.Returns? {
        var rest := FtpClient.Transfers(lib, sinks, resolve, dir, names, k + 1);
        TransfersScoped(lib, sinks, resolve, dir, names, k + 1);
        SlotWalkAppend(sinks, resolve, dir, Idle, step.trace, rest.trace);
      }
    }
  }

  /** Every sink downloadAllFiles is handed is closed before its next call,
      whatever the library and the sinks answer: the calls after the listing
      follow the Slot machine without misuse, and never end holding a sink.
      They end between files, or, when the provider itself threw, with
      nothing to close. A run that returns ends between files. */
  lemma SinksScoped(lib: Library, sinks: FtpClient.SinkProvider, resolve: (Path, string) -> Path, dir: Path)
    ensures var r := FtpClient.DownloadAllFiles(lib, sinks, resolve, dir);
            var end := SlotWalk(sinks, resolve, dir, Idle, r.trace[1..]);
            && (end == Idle || (end.Requested? && r.outcome.Throws? && sinks.open(end.name).Throws?))
            && (r.outcome.Returns? ==> end == Idle)
  {
    var r := FtpClient.DownloadAllFiles(lib, sinks, resolve, dir);
    if lib.listFiles(dir).Returns? {
      var names := FtpClient.FileNames(lib.listFiles(dir).value);
      TransfersScoped(lib, sinks, resolve, dir, names, 0);
      assert r.trace[1..] == FtpClient.Transfers(lib, sinks, resolve, dir, names, 0).trace;
    }
  }

  // ---------------------------------------------------------------------------
  // Downloads whose every pass completes

  /** A listing that was obtained and whose every file pass completes makes
      downloadAllFiles return. */
  lemma AllCompleteReturns(lib: Library, sinks: FtpClient.SinkProvider, resolve: (Path, string) -> Path, dir: Path)
    requires lib.listFiles(dir).Returns?
    requires var names := FtpClient.FileNames(lib.listFiles(dir).value);
             forall j :: 0 <= j < |names| ==> Completes(lib, sinks, resolve, dir, names[j])
    ensures FtpClient.DownloadAllFiles(lib, sinks, resolve, dir).outcome.Returns?
  {
    DownloadFollowsPlan(lib, sinks, resolve, dir);
  }

  lemma TwoNames(a: string, b: string)
    ensures FtpClient.FileNames([Entry(a, FileType), Entry(b, FileType)]) == [a, b]
  {
    var entries := [Entry(a, FileType), Entry(b, FileType)];
    assert entries[..1] == [Entry(a, FileType)];
    assert entries[..1][..0] == [];
    assert FtpClient.FileNames(entries[..1]) == [a];
  }

  /** A listing of two file entries whose passes both complete. */
  lemma TwoFiles(lib: Library, sinks: FtpClient.SinkProvider, resolve: (Path, string) -> Path,
                 dir: Path, a: string, b: string)
    requires lib.listFiles(dir) == Returns([Entry(a, FileType), Entry(b, FileType)])
    requires Completes(lib, sinks, resolve, dir, a) && Completes(lib, sinks, resolve, dir, b)
    ensures var r := FtpClient.DownloadAllFiles(lib, sinks, resolve, dir);
            && r.outcome.Returns?
            && Reports(r.trace) == Plan([a, b])
            && Requests(r.trace) == [a, b]
            && Retrievals(r.trace) == [resolve(dir, a), resolve(dir, b)]
  {
    TwoNames(a, b);
    var names := [a, b];
    assert forall j :: 0 <= j < |names| ==> Completes(lib, sinks, resolve, dir, names[j]);
    AllCompleteReturns(lib, sinks, resolve, dir);
    DownloadSucceeds(lib, sinks, resolve, dir);
    var targets := Targets(resolve, dir, names);
    assert targets == [resolve(dir, a), resolve(dir, b)];
  }

  // ---------------------------------------------------------------------------
  // The unit-test scenario

  /** Two file entries under /remote/path, a provider that hands out the same
      stream for every name, a retrieve that answers false (a mock's default)
      and a resolve that joins with '/': both files are announced, requested
      and retrieved in order, and the false answers do not stop the loop. */
  lemma TwoFileListing(lib: Library, sinks: FtpClient.SinkProvider, resolve: (Path, string) -> Path)
    requires lib.listFiles("/remote/path")
             == Returns([Entry("fileOne.txt", FileType), Entry("fileTwo.txt", FileType)])
    requires forall p, s :: lib.retrieveFile(p, s) == Returns(false)
    requires forall n :: sinks.open(n) == Returns(Sink(0))
    requires forall s :: sinks.close(s) == Returns(())
    requires forall d, n :: resolve(d, n) == d + "/" + n
    ensures var r := FtpClient.DownloadAllFiles(lib, sinks, resolve, "/remote/path");
            && r.outcome.Returns?
            && Reports(r.trace) == ["Downloading (1 of 2):[fileOne.txt]", "Downloading (2 of 2):[fileTwo.txt]"]
            && Requests(r.trace) == ["fileOne.txt", "fileTwo.txt"]
            && Retrievals(r.trace) == ["/remote/path/fileOne.txt", "/remote/path/fileTwo.txt"]
  {
    var dir, a, b := "/remote/path", "fileOne.txt", "fileTwo.txt";
    assert Completes(lib, sinks, resolve, dir, a) && Completes(lib, sinks, resolve, dir, b);
    TwoFiles(lib, sinks, resolve, dir, a, b);
    TwoLines(a, b);
    ScenarioStrings();
  }

  lemma ScenarioStrings()
    ensures "/remote/path" + "/" + "fileOne.txt" == "/remote/path/fileOne.txt"
    ensures "/remote/path" + "/" + "fileTwo.txt" == "/remote/path/fileTwo.txt"
    ensures "Downloading (1 of 2):[" + "fileOne.txt" + "]" == "Downloading (1 of 2):[fileOne.txt]"
    ensures "Downloading (2 of 2):[" + "fileTwo.txt" + "]" == "Downloading (2 of 2):[fileTwo.txt]"
  {
  }

  lemma TwoLines(a: string, b: string)
    ensures Plan([a, b]) == ["Downloading (1 of 2):[" + a + "]", "Downloading (2 of 2):[" + b + "]"]
  {
    var plan := Plan([a, b]);
    Progress.MessageLiteral(1, 2, a);
    Progress.MessageLiteral(2, 2, b);
    assert Decimal.Dec(1)[0] == '1' && Decimal.Dec(2)[0] == '2';
    assert "Downloading (" + "1" + " of " + "2" + "):[" == "Downloading (1 of 2):[";
    assert "Downloading (" + "2" + " of " + "2" + "):[" == "Downloading (2 of 2):[";
    assert plan == [plan[0], plan[1]];
  }
}
