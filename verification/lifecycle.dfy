/** The client's connection lifecycle as a state machine over the library
    calls it makes: Unopened, then connect, reply check, login and passive
    mode to Ready; from Ready, listing and transfer calls keep it Ready and
    logout then disconnect release it; a failed check releases it by a
    disconnect. Any other order is Broken. The lemmas show that the traces of
    open, of downloadAllFiles and of close follow this machine. */
module Lifecycle {
  import opened Ftp
  import FtpClient

  datatype Phase =
    | Unopened
    | ConnectIssued
    | ReplyChecked
    | LoginIssued
    | Ready
    | LogoutIssued
    | Released
    | Broken

  /** Calls an open session makes while it is in use. */
  predicate IsTransfer(e: Event) {
    e.ListFiles? || e.RetrieveFile? || e.Report? || e.RequestSink? || e.CloseSink?
  }

  predicate AllTransfers(t: seq<Event>) {
    forall i :: 0 <= i < |t| ==> IsTransfer(t[i])
  }

  function Step(p: Phase, e: Event): Phase {
    match p
    case Unopened => if e.Connect? then ConnectIssued else Broken
    case ConnectIssued => if e == GetReplyCode then ReplyChecked else Broken
    case ReplyChecked =>
      if e.Login? then LoginIssued else if e == Disconnect then Released else Broken
    case LoginIssued =>
      if e == EnterLocalPassiveMode then Ready else if e == Disconnect then Released else Broken
    case Ready =>
      if e == Logout then LogoutIssued else if IsTransfer(e) then Ready else Broken
    case LogoutIssued => if e == Disconnect then Released else Broken
    case Released => Broken
    case Broken => Broken
  }

  /** The phase reached from `p` by the calls of `t`, in order. */
  function Walk(p: Phase, t: seq<Event>): Phase
    decreases |t|
  {
    if |t| == 0 then p else Walk(Step(p, t[0]), t[1..])
  }

  lemma {:induction false} WalkAppend(p: Phase, a: seq<Event>, b: seq<Event>)
    ensures Walk(p, a + b) == Walk(Walk(p, a), b)
    decreases |a|
  {
    if |a| == 0 {
      assert a + b == b;
    } else {
      assert (a + b)[0] == a[0];
      assert (a + b)[1..] == a[1..] + b;
      WalkAppend(Step(p, a[0]), a[1..], b);
    }
  }

  /** open follows the machine. It ends Ready exactly when it succeeds and
      Released exactly when a check failed; any other failure is the very
      exception connect or login threw, passed on unchanged. */
  lemma OpenLifecycle(lib: Library, server: string, port: Int32, user: string, password: string)
    ensures var r := FtpClient.Open(lib, server, port, user, password);
            var p := Walk(Unopened, r.trace);
            && p != Broken
            && (p == Ready <==> r.outcome.Returns?)
            && (p == Released <==> Disconnect in r.trace)
            && (r.outcome.Throws? ==>
                  || p == Released
                  || (p == ConnectIssued && lib.connect.Throws? && r.outcome == Throws(lib.connect.error))
                  || (p == LoginIssued && lib.login.Throws? && r.outcome == Throws(lib.login.error)))
  {
    var t := FtpClient.Open(lib, server, port, user, password).trace;
    var c, l := Connect(server, port), Login(user, password);
    if lib.connect.Throws? {
      assert t == [c];
      assert Walk(Unopened, t) == Walk(ConnectIssued, t[1..]);
    } else if !IsPositiveCompletion(lib.replyCode) {
      OpenCalls(lib, server, port, user, password);
      WalkThreeFrom(Unopened, c, GetReplyCode, Disconnect);
    } else if lib.login.Throws? {
      assert t == [c, GetReplyCode, l];
      WalkThreeFrom(Unopened, c, GetReplyCode, l);
    } else {
      OpenCalls(lib, server, port, user, password);
      WalkFour(c, GetReplyCode, l, if lib.login.value then EnterLocalPassiveMode else Disconnect);
    }
  }

  lemma WalkThreeFrom(p: Phase, a: Event, b: Event, c: Event)
    ensures Walk(p, [a, b, c]) == Step(Step(Step(p, a), b), c)
  {
    var p1 := Step(p, a);
    var p2 := Step(p1, b);
    assert [a, b, c][1..] == [b, c] && [b, c][1..] == [c];
    assert Walk(p2, [c]) == Walk(Step(p2, c), []);
    assert Walk(p1, [b, c]) == Walk(p2, [c]);
  }

  lemma WalkFour(a: Event, b: Event, c: Event, d: Event)
    ensures Walk(Unopened, [a, b, c, d]) == Step(Step(Step(Step(Unopened, a), b), c), d)
  {
    var p1 := Step(Unopened, a);
    assert [a, b, c, d][1..] == [b, c, d];
    WalkThreeFrom(p1, b, c, d);
  }

  /** The exact calls of a session that opens and of the two failed checks. */
  lemma OpenCalls(lib: Library, server: string, port: Int32, user: string, password: string)
    ensures var r := FtpClient.Open(lib, server, port, user, password);
            && (r.outcome.Returns? ==>
                  r.trace == [Connect(server, port), GetReplyCode, Login(user, password), EnterLocalPassiveMode])
            && (lib.connect.Returns? && !IsPositiveCompletion(lib.replyCode) ==>
                  r.trace == [Connect(server, port), GetReplyCode, Disconnect])
            && (FtpClient.ConnectAccepted(lib) && lib.login == Returns(false) ==>
                  r.trace == [Connect(server, port), GetReplyCode, Login(user, password), Disconnect])
  {
  }

  /** close, with the disconnect in a finally, always releases a Ready session. */
  lemma CloseReleases(lib: Library)
    ensures Walk(Ready, FtpClient.Close(lib).trace) == Released
  {
    var t := FtpClient.Close(lib).trace;
    assert Walk(Ready, t) == Walk(LogoutIssued, t[1..]);
    assert Walk(LogoutIssued, t[1..]) == Walk(Released, t[2..]);
  }

  /** close as written releases a Ready session only when logout returns;
      when logout throws, the connection is left open. */
  lemma CloseAsWrittenLeaks(lib: Library)
    ensures Walk(Ready, FtpClient.CloseAsWritten(lib).trace) == Released <==> lib.logout.Returns?
    ensures lib.logout.Throws? ==> Walk(Ready, FtpClient.CloseAsWritten(lib).trace) == LogoutIssued
  {
    var t := FtpClient.CloseAsWritten(lib).trace;
    assert Walk(Ready, t) == Walk(LogoutIssued, t[1..]);
    if |t| > 1 {
      assert Walk(LogoutIssued, t[1..]) == Walk(Released, t[2..]);
    }
  }

  /** Transfer calls leave a Ready session Ready. */
  lemma {:induction false} TransfersKeepReady(t: seq<Event>)
    requires AllTransfers(t)
    ensures Walk(Ready, t) == Ready
    decreases |t|
  {
    if |t| > 0 {
      TransfersKeepReady(t[1..]);
    }
  }

  /** Every call of one loop pass is a transfer call. */
  lemma TransferOneIsTransfer(lib: Library, sinks: FtpClient.SinkProvider, resolve: (Path, string) -> Path,
                              dir: Path, i: nat, total: nat, name: string)
    ensures AllTransfers(FtpClient.TransferOne(lib, sinks, resolve, dir, i, total, name).trace)
  {
  }

  lemma {:induction false} TransfersAreTransfer(lib: Library, sinks: FtpClient.SinkProvider,
                                                resolve: (Path, string) -> Path,
                                                dir: Path, names: seq<string>, k: nat)
    requires k <= |names|
    ensures AllTransfers(FtpClient.Transfers(lib, sinks, resolve, dir, names, k).trace)
    decreases |names| - k
  {
    if k < |names| {
      var step := FtpClient.TransferOne(lib, sinks, resolve, dir, k, |names|, names[k]);
      TransferOneIsTransfer(lib, sinks, resolve, dir, k, |names|, names[k]);
      if step.outcome.Returns? {
        var rest := FtpClient.Transfers(lib, sinks, resolve, dir, names, k + 1);
        TransfersAreTransfer(lib, sinks, resolve, dir, names, k + 1);
        AllTransfersAppend(step.trace, rest.trace);
      }
    }
  }

  lemma AllTransfersAppend(a: seq<Event>, b: seq<Event>)
    requires AllTransfers(a) && AllTransfers(b)
    ensures AllTransfers(a + b)
  {
    forall i | 0 <= i < |a + b|
      ensures IsTransfer((a + b)[i])
    {
      if i >= |a| {
        assert (a + b)[i] == b[i - |a|];
      }
    }
  }

  /** downloadAllFiles makes only transfer calls, whatever the library and the
      sinks answer, so it never disturbs an open session. */
  lemma DownloadKeepsReady(lib: Library, sinks: FtpClient.SinkProvider, resolve: (Path, string) -> Path, dir: Path)
    ensures Walk(Ready, FtpClient.DownloadAllFiles(lib, sinks, resolve, dir).trace) == Ready
  {
    var t := FtpClient.DownloadAllFiles(lib, sinks, resolve, dir).trace;
    if lib.listFiles(dir).Returns? {
      var names := FtpClient.FileNames(lib.listFiles(dir).value);
      TransfersAreTransfer(lib, sinks, resolve, dir, names, 0);
      AllTransfersAppend([ListFiles(dir)], FtpClient.Transfers(lib, sinks, resolve, dir, names, 0).trace);
    }
    TransfersKeepReady(t);
  }

  /** A whole session: getClient, downloadAllFiles, close. Once open succeeds
      the connection is released at the end, however the download ended. */
  lemma SessionReleases(lib: Library, sinks: FtpClient.SinkProvider, resolve: (Path, string) -> Path,
                        server: string, port: Int32, user: string, password: string, dir: Path)
    requires FtpClient.Open(lib, server, port, user, password).outcome.Returns?
    ensures Walk(Unopened,
                 FtpClient.Open(lib, server, port, user, password).trace
                 + FtpClient.DownloadAllFiles(lib, sinks, resolve, dir).trace
                 + FtpClient.Close(lib).trace) == Released
  {
    var o := FtpClient.Open(lib, server, port, user, password).trace;
    var d := FtpClient.DownloadAllFiles(lib, sinks, resolve, dir).trace;
    var c := FtpClient.Close(lib).trace;
    OpenLifecycle(lib, server, port, user, password);
    DownloadKeepsReady(lib, sinks, resolve, dir);
    CloseReleases(lib);
    WalkAppend(Unopened, o, d);
    WalkAppend(Unopened, o + d, c);
  }
}
