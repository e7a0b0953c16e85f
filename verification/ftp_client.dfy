/** The session wrapper FtpClient: opening a session (connect, reply check,
    login, passive mode), closing it, listing a directory, retrieving one file,
    and mirroring every file of a remote directory through caller-supplied
    sinks. Each operation returns the calls it made and how it ended. */
module FtpClient {
  import opened Ftp
  import Decimal
  import Progress

  /** The defaults of the two-argument getClient. */
  const DefaultPort: Int32 := 21
  const AnonymousUser := "anonymous"
  const AnonymousPassword := ""

  const ConnectFailure := "Unable to connect"
  const LoginFailure := "Unable to login"

  /** An opened client; `server` is the string form of the server's URI. */
  datatype Client = Client(server: string)

  /** The caller's `Function<Path, OutputStream>` together with the streams'
      `close`: what opening a sink for a bare file name and closing it answer. */
  datatype SinkProvider = SinkProvider(open: Path -> Answer<Sink>, close: Sink -> Answer<()>)

  /** The text of a failed check up to the port: its first words and the server. */
  function ErrorPrefix(failure: string, server: string): string {
    failure + " to FTP Server: " + server + " port: "
  }

  function ConnectError(server: string, port: Int32): (e: Exception)
    ensures e.IOException? && StartsWith(e.message, ConnectFailure)
  {
    var m := ErrorPrefix(ConnectFailure, server) + Decimal.IntToDec(port);
    assert m[..|ConnectFailure|] == ConnectFailure;
    IOException(m)
  }

  function LoginError(server: string, port: Int32): (e: Exception)
    ensures e.IOException? && StartsWith(e.message, LoginFailure)
  {
    var m := ErrorPrefix(LoginFailure, server) + Decimal.IntToDec(port);
    assert m[..|LoginFailure|] == LoginFailure;
    IOException(m)
  }

  /** Both failures are IOExceptions whose text is the failure's first words,
      the server, and the port, which reads back from its decimal digits. */
  lemma ErrorNamesServerAndPort(server: string, port: Int32, failure: string, e: Exception)
    requires || (failure == ConnectFailure && e == ConnectError(server, port))
             || (failure == LoginFailure && e == LoginError(server, port))
    ensures e.IOException?
    ensures var prefix := failure + " to FTP Server: " + server + " port: ";
            && StartsWith(e.message, prefix)
            && var n := e.message[|prefix|..];
               && 1 <= |n|
               && (port >= 0 ==> Decimal.AllDigits(n) && Decimal.Value(n) == port && (n[0] == '0' <==> port == 0))
               && (port < 0 ==> 2 <= |n| && n[0] == '-' && n[1] != '0' && Decimal.AllDigits(n[1..]) && Decimal.Value(n[1..]) + port == 0)
  {
    var prefix := ErrorPrefix(failure, server);
    var n := Decimal.IntToDec(port);
    assert e.message == prefix + n;
    assert e.message[..|prefix|] == prefix;
    assert e.message[|prefix|..] == n;
  }

  /** connect returned and the server's reply was a positive completion. */
  predicate ConnectAccepted(lib: Library) {
    lib.connect.Returns? && IsPositiveCompletion(lib.replyCode)
  }

  /** After a failed check: disconnect, then raise `error` (unless disconnect
      itself throws, whose exception then propagates instead). */
  function Abandon(before: seq<Event>, lib: Library, error: Exception): (r: Run<()>)
    ensures r.trace == before + [Disconnect]
    ensures r.outcome.Throws?
    ensures lib.disconnect.Returns? ==> r.outcome.error == error
  {
    Run(before + [Disconnect], if lib.disconnect.Throws? then Throws(lib.disconnect.error) else Throws(error))
  }

  /** open(port, user, password). */
  function Open(lib: Library, server: string, port: Int32, user: string, password: string): (r: Run<()>)
    // connect is always the first call
    ensures 1 <= |r.trace| && r.trace[0] == Connect(server, port)
    // the session opens exactly when the reply is 2yz and the login is accepted
    ensures r.outcome.Returns? <==> ConnectAccepted(lib) && lib.login == Returns(true)
    // login is attempted exactly when the reply check passed, with the given credentials
    ensures Login(user, password) in r.trace <==> ConnectAccepted(lib)
    ensures forall e :: e in r.trace && e.Login? ==> e == Login(user, password)
    // passive mode is entered only by a session that opens
    ensures EnterLocalPassiveMode in r.trace <==> r.outcome.Returns?
    // a failed check disconnects, and nothing follows the disconnect
    ensures Disconnect in r.trace <==>
      lib.connect.Returns? && (!IsPositiveCompletion(lib.replyCode) || lib.login == Returns(false))
    ensures Disconnect in r.trace ==> r.trace[|r.trace| - 1] == Disconnect && r.outcome.Throws?
    // the failure messages
    ensures lib.connect.Returns? && !IsPositiveCompletion(lib.replyCode) && lib.disconnect.Returns? ==>
      r.outcome.Throws? && r.outcome.error.IOException? && StartsWith(r.outcome.error.message, ConnectFailure)
    ensures ConnectAccepted(lib) && lib.login == Returns(false) && lib.disconnect.Returns? ==>
      r.outcome.Throws? && r.outcome.error.IOException? && StartsWith(r.outcome.error.message, LoginFailure)
    // the library's own exceptions come through unchanged
    ensures lib.connect.Throws? ==> r == Run([Connect(server, port)], Throws(lib.connect.error))
    ensures ConnectAccepted(lib) && lib.login.Throws? ==> r.outcome == Throws(lib.login.error)
    ensures Disconnect in r.trace && lib.disconnect.Throws? ==> r.outcome == Throws(lib.disconnect.error)
  {
    match lib.connect
    case Throws(e) => Run([Connect(server, port)], Throws(e))
    case Returns(_) =>
      if !IsPositiveCompletion(lib.replyCode) then
        Abandon([Connect(server, port), GetReplyCode], lib, ConnectError(server, port))
      else
        match lib.login
        case Throws(e) => Run([Connect(server, port), GetReplyCode, Login(user, password)], Throws(e))
        case Returns(accepted) =>
          if !accepted then
            Abandon([Connect(server, port), GetReplyCode, Login(user, password)], lib, LoginError(server, port))
          else
            Run([Connect(server, port), GetReplyCode, Login(user, password), EnterLocalPassiveMode], Returns(()))
  }

  /** getClient(serverAddress, ftp, port, user, password): a client opened
      with the given port and credentials. */
  function GetClientWith(lib: Library, server: string, port: Int32, user: string, password: string): (r: Run<Client>)
    ensures 1 <= |r.trace| && r.trace[0] == Connect(server, port)
    // login is attempted, with the given credentials, exactly when the reply was 2yz
    ensures Login(user, password) in r.trace <==> ConnectAccepted(lib)
    ensures forall e :: e in r.trace && e.Login? ==> e == Login(user, password)
    ensures EnterLocalPassiveMode in r.trace <==> r.outcome.Returns?
    ensures r.outcome.Returns? <==> ConnectAccepted(lib) && lib.login == Returns(true)
    ensures r.outcome.Returns? ==> r.outcome.value == Client(server)
    ensures r.outcome.Returns? ==>
      r.trace == [Connect(server, port), GetReplyCode, Login(user, password), EnterLocalPassiveMode]
    // a failed check disconnects, last, and the client is not returned
    ensures Disconnect in r.trace <==>
      lib.connect.Returns? && (!IsPositiveCompletion(lib.replyCode) || lib.login == Returns(false))
    ensures Disconnect in r.trace ==> r.trace[|r.trace| - 1] == Disconnect && r.outcome.Throws?
    // the failure messages
    ensures lib.connect.Returns? && !IsPositiveCompletion(lib.replyCode) && lib.disconnect.Returns? ==>
      r.outcome.Throws? && r.outcome.error.IOException? && StartsWith(r.outcome.error.message, ConnectFailure)
    ensures ConnectAccepted(lib) && lib.login == Returns(false) && lib.disconnect.Returns? ==>
      r.outcome.Throws? && r.outcome.error.IOException? && StartsWith(r.outcome.error.message, LoginFailure)
    // the library's own exceptions come through unchanged
    ensures lib.connect.Throws? ==> r == Run([Connect(server, port)], Throws(lib.connect.error))
    ensures ConnectAccepted(lib) && lib.login.Throws? ==> r.outcome == Throws(lib.login.error)
    ensures Disconnect in r.trace && lib.disconnect.Throws? ==> r.outcome == Throws(lib.disconnect.error)
  {
    var session := Open(lib, server, port, user, password);
    Run(session.trace, if session.outcome.Throws? then Throws(session.outcome.error) else Returns(Client(server)))
  }

  /** getClient(serverAddress, ftp): port 21, anonymous user, empty password. */
  function GetClient(lib: Library, server: string): (r: Run<Client>)
    ensures 1 <= |r.trace| && r.trace[0] == Connect(server, 21)
    ensures Login("anonymous", "") in r.trace <==> ConnectAccepted(lib)
    ensures forall e :: e in r.trace && e.Login? ==> e == Login("anonymous", "")
    ensures EnterLocalPassiveMode in r.trace <==> r.outcome.Returns?
    ensures r.outcome.Returns? <==> ConnectAccepted(lib) && lib.login == Returns(true)
    ensures r.outcome.Returns? ==> r.outcome.value == Client(server)
    ensures r.outcome.Returns? ==>
      r.trace == [Connect(server, 21), GetReplyCode, Login("anonymous", ""), EnterLocalPassiveMode]
    ensures Disconnect in r.trace <==>
      lib.connect.Returns? && (!IsPositiveCompletion(lib.replyCode) || lib.login == Returns(false))
    ensures Disconnect in r.trace ==> r.trace[|r.trace| - 1] == Disconnect && r.outcome.Throws?
    ensures lib.connect.Returns? && !IsPositiveCompletion(lib.replyCode) && lib.disconnect.Returns? ==>
      r.outcome.Throws? && r.outcome.error.IOException? && StartsWith(r.outcome.error.message, "Unable to connect")
    ensures ConnectAccepted(lib) && lib.login == Returns(false) && lib.disconnect.Returns? ==>
      r.outcome.Throws? && r.outcome.error.IOException? && StartsWith(r.outcome.error.message, "Unable to login")
    ensures lib.connect.Throws? ==> r == Run([Connect(server, 21)], Throws(lib.connect.error))
    ensures ConnectAccepted(lib) && lib.login.Throws? ==> r.outcome == Throws(lib.login.error)
    ensures Disconnect in r.trace && lib.disconnect.Throws? ==> r.outcome == Throws(lib.disconnect.error)
  {
    GetClientWith(lib, server, DefaultPort, AnonymousUser, AnonymousPassword)
  }

  /** close() as the source writes it: logout, then disconnect. A logout that
      throws skips the disconnect. */
  function CloseAsWritten(lib: Library): (r: Run<()>)
    ensures 1 <= |r.trace| && r.trace[0] == Logout
    ensures Disconnect in r.trace <==> lib.logout.Returns?
    ensures r.outcome.Returns? <==> lib.logout.Returns? && lib.disconnect.Returns?
    // logout's exception propagates and ends close; otherwise disconnect's answer is close's
    ensures lib.logout.Throws? ==> r == Run([Logout], Throws(lib.logout.error))
    ensures lib.logout.Returns? ==> r == Run([Logout, Disconnect], lib.disconnect)
  {
    match lib.logout
    case Throws(e) => Run([Logout], Throws(e))
    case Returns(_) => Run([Logout, Disconnect], lib.disconnect)
  }

  /** close() with the disconnect in a `finally`: logout, then disconnect
      whatever logout did. An exception from disconnect replaces one from logout. */
  function Close(lib: Library): (r: Run<()>)
    ensures r.trace == [Logout, Disconnect]
    ensures r.outcome.Returns? <==> lib.logout.Returns? && lib.disconnect.Returns?
    ensures lib.disconnect.Throws? ==> r.outcome == lib.disconnect
    ensures lib.disconnect.Returns? && lib.logout.Throws? ==> r.outcome.error == lib.logout.error
  {
    var outcome :=
      if lib.disconnect.Throws? then lib.disconnect
      else if lib.logout.Throws? then Throws(lib.logout.error)
      else Returns(());
    Run([Logout, Disconnect], outcome)
  }

  /** listFiles(remoteDir): the library's listing, as it came. */
  function ListFiles(lib: Library, dir: Path): (r: Run<seq<Entry>>)
    ensures r.trace == [Ftp.ListFiles(dir)]
    ensures r.outcome == lib.listFiles(dir)
  {
    Run([Ftp.ListFiles(dir)], lib.listFiles(dir))
  }

  /** downloadFile(remoteFile, out): one retrieve; its boolean answer is ignored. */
  function DownloadFile(lib: Library, path: Path, sink: Sink): (r: Run<()>)
    ensures r.trace == [RetrieveFile(path, sink)]
    ensures r.outcome.Throws? <==> lib.retrieveFile(path, sink).Throws?
    ensures r.outcome.Throws? ==> r.outcome.error == lib.retrieveFile(path, sink).error
  {
    var retrieved := lib.retrieveFile(path, sink);
    Run([RetrieveFile(path, sink)], if retrieved.Throws? then Throws(retrieved.error) else Returns(()))
  }

  /** The names of the file entries of a listing, in listing order. */
  function FileNames(entries: seq<Entry>): (names: seq<string>)
    ensures |names| <= |entries|
  {
    if |entries| == 0 then []
    else
      var last := entries[|entries| - 1];
      FileNames(entries[..|entries| - 1]) + (if last.IsFile() then [last.name] else [])
  }

  /** One pass of the loop for file `i` (from 0) of `total`: report progress,
      request a sink for the bare name, retrieve `resolve(dir, name)` into it,
      and close it, as a try-with-resources does. */
  function TransferOne(lib: Library, sinks: SinkProvider, resolve: (Path, string) -> Path,
                       dir: Path, i: nat, total: nat, name: string): (r: Run<()>)
    ensures 2 <= |r.trace| <= 4
    ensures r.trace[0] == Report(Progress.Message(i + 1, total, name))
    ensures r.trace[1] == RequestSink(name)
    // a sink that was handed out is closed, last, whatever the retrieve did
    ensures sinks.open(name).Returns? <==> |r.trace| == 4
    ensures |r.trace| == 4 ==>
      r.trace[2] == RetrieveFile(resolve(dir, name), sinks.open(name).value) &&
      r.trace[3] == CloseSink(sinks.open(name).value)
    // the pass completes when nothing throws; what retrieve returns does not matter
    ensures r.outcome.Returns? <==>
      && sinks.open(name).Returns?
      && lib.retrieveFile(resolve(dir, name), sinks.open(name).value).Returns?
      && sinks.close(sinks.open(name).value).Returns?
    // an exception from retrieve wins over one from close
    ensures sinks.open(name).Returns? && lib.retrieveFile(resolve(dir, name), sinks.open(name).value).Throws? ==>
      r.outcome == Throws(lib.retrieveFile(resolve(dir, name), sinks.open(name).value).error)
  {
    var announced := [Report(Progress.Message(i + 1, total, name)), RequestSink(name)];
    match sinks.open(name)
    case Throws(e) => Run(announced, Throws(e))
    case Returns(sink) =>
      var path := resolve(dir, name);
      var retrieved := lib.retrieveFile(path, sink);
      var closed := sinks.close(sink);
      var outcome :=
        if retrieved.Throws? then Throws(retrieved.error)  // close's exception is suppressed
        else if closed.Throws? then Throws(closed.error)
        else Returns(());                                  // a false return is ignored
      Run(announced + [RetrieveFile(path, sink), CloseSink(sink)], outcome)
  }

  /** The loop from file `k` on: each file in turn, stopping at the first
      one that throws. */
  function Transfers(lib: Library, sinks: SinkProvider, resolve: (Path, string) -> Path,
                     dir: Path, names: seq<string>, k: nat): (r: Run<()>)
    requires k <= |names|
    ensures r.outcome.Returns? ==> |r.trace| == 4 * (|names| - k)
    // a file left is at least announced and its sink requested
    ensures k < |names| ==>
      && 2 <= |r.trace|
      && r.trace[0] == Report(Progress.Message(k + 1, |names|, names[k]))
      && r.trace[1] == RequestSink(names[k])
    decreases |names| - k
  {
    if k == |names| then Run([], Returns(()))
    else
      var step := TransferOne(lib, sinks, resolve, dir, k, |names|, names[k]);
      if step.outcome.Throws? then step
      else
        var rest := Transfers(lib, sinks, resolve, dir, names, k + 1);
        Run(step.trace + rest.trace, rest.outcome)
  }

  /** downloadAllFiles(remoteDir, outputProvider, progressReporter). */
  function DownloadAllFiles(lib: Library, sinks: SinkProvider, resolve: (Path, string) -> Path, dir: Path): (r: Run<()>)
    ensures 1 <= |r.trace| && r.trace[0] == Ftp.ListFiles(dir)
    ensures lib.listFiles(dir).Throws? ==>
      r.trace == [Ftp.ListFiles(dir)] && r.outcome == Throws(lib.listFiles(dir).error)
    // with nothing to transfer, the listing is the only call
    ensures lib.listFiles(dir).Returns? && FileNames(lib.listFiles(dir).value) == [] ==>
      r == Run([Ftp.ListFiles(dir)], Returns(()))
  {
    match lib.listFiles(dir)
    case Throws(e) => Run([Ftp.ListFiles(dir)], Throws(e))
    case Returns(entries) =>
      var rest := Transfers(lib, sinks, resolve, dir, FileNames(entries), 0);
      Run([Ftp.ListFiles(dir)] + rest.trace, rest.outcome)
  }
}
