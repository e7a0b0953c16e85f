# ftputil's FtpClient, as a trace model

`FtpClient` wraps one connection of the Apache Commons Net FTP client. It
opens a session, closes it, lists a remote directory, and retrieves one file.
It can also mirror every regular file of a remote directory into sinks that
the caller provides, reporting progress along the way. This project models
each of these operations as a pure function. Each function returns the
sequence of calls it made (to the library, to the sink provider and to the
progress reporter) together with how it ended: it returned, or it threw an
exception.

The library is not modelled; it is an oracle. `Ftp.Library` holds what each
library call answers:

- `connect`, `getReplyCode`, `login`, `logout` and `disconnect` each have a
  single answer per session.
- `listFiles` and `retrieveFile` each have an answer per argument.
- A Java exception is `Throws(e)`. The library throws `IOException`s. The
  caller's sink provider may also throw an unchecked `RuntimeException`, as
  the one in FtpUtil.java:85 does.

The caller's `Function<Path, OutputStream>` and the streams' `close` become
`FtpClient.SinkProvider`. `Path.resolve` is an uninterpreted parameter
`resolve`.

Modules:

- `Ftp`: the library's answers, the call events, and the reply-code class.
- `Decimal`: `%d` and `int`-to-string rendering, and reading the digits back.
- `Progress`: the progress line `Downloading (i of N):[name]` and its parser.
- `FtpClient`: the operations of `FtpClient.java`.
- `Lifecycle`: the connection's state machine, and the proofs that `open`,
  `downloadAllFiles` and `close` follow it.
- `DownloadPlan`: which entries are kept, and the proofs about the order of
  progress lines, sink requests and retrievals, about where the loop stops,
  and about sink scoping.

## Behaviour of the code worth knowing

The model follows the code in each of these cases:

- **Reply code.** `open` calls `connect` and then reads the reply with a
  separate `getReplyCode` call (FtpClient.java:53-56). The model records both
  calls.
- **Exceptions in `open`.** `open` disconnects only when a check *answers*
  negatively (FtpClient.java:56-57 and 64-65). If `connect` (:53) or `login`
  (:64) throws, that same exception propagates unchanged and nothing is
  disconnected. `FtpClient.Open` and `Lifecycle.OpenLifecycle` state this case.
- **Exceptions in `close`.** The class `implements Closeable`
  (FtpClient.java:18), and its caller opens it in a try-with-resources
  (FtpUtil.java:75), which relies on `close` to release the connection. Yet
  `close` skips `disconnect` when `logout` throws (FtpClient.java:79-80). See
  Findings.

## Model

| member | source | states |
|---|---|---|
| Ftp.PositiveCompletionIsFirstDigitTwo | ftputil/src/main/java/ftputil/FtpClient.java:56 | The reply check accepts exactly the three-digit codes whose first digit is 2, the positive-completion class of section 4.2 of RFC 959 |
| FtpClient.GetClient | ftputil/src/main/java/ftputil/FtpClient.java:22-35 | The short overload connects to the server on port 21. It logs in as "anonymous" with an empty password exactly when the reply was 2yz, and never with other credentials. It enters passive mode exactly when it yields a client, which happens exactly when the login is accepted; the calls are then exactly connect(server, 21), reply check, login("anonymous", ""), passive mode. A failed check disconnects, as the last call, and throws; with a working disconnect the error is an IOException beginning "Unable to connect" (reply not 2yz) or "Unable to login" (login refused). An exception thrown by connect or login is passed on unchanged, with no disconnect after it, and when disconnect itself throws, its exception is the one passed on |
| FtpClient.GetClientWith | ftputil/src/main/java/ftputil/FtpClient.java:37-44 | The long overload passes port, user and password through unchanged. It connects with the given port and logs in with the given credentials exactly when the reply was 2yz, and never with others. It enters passive mode exactly when it yields a client; the calls are then exactly connect(server, port), reply check, login(user, password), passive mode. A failed check disconnects, as the last call, and throws; with a working disconnect the error is an IOException beginning "Unable to connect" (reply not 2yz) or "Unable to login" (login refused). An exception thrown by connect or login is passed on unchanged, with no disconnect after it, and when disconnect itself throws, its exception is the one passed on |
| FtpClient.ConnectError | ftputil/src/main/java/ftputil/FtpClient.java:58-60 | The connect failure is an IOException whose text begins "Unable to connect" |
| FtpClient.LoginError | ftputil/src/main/java/ftputil/FtpClient.java:66-68 | The login failure is an IOException whose text begins "Unable to login" |
| FtpClient.ErrorNamesServerAndPort | ftputil/src/main/java/ftputil/FtpClient.java:58-68 | Each failure's text is its first words, " to FTP Server: ", the server, " port: " and then the port in decimal, with no leading zeros, which reads back as the port |
| FtpClient.Open | ftputil/src/main/java/ftputil/FtpClient.java:51-75 | connect comes first. Login happens exactly when the reply was 2yz, and passive mode is entered exactly when the session opens. disconnect happens exactly when a check answered negatively; it is then the last call and the operation throws. With a working disconnect, the error begins "Unable to connect" or "Unable to login". An exception thrown by connect or login is passed on unchanged, with no disconnect after it, and when disconnect itself throws, its exception is the one passed on |
| Lifecycle.OpenCalls | ftputil/src/main/java/ftputil/FtpClient.java:51-75 | The exact call sequences. A successful open is connect, reply check, login, passive mode. A rejected reply is connect, reply check, disconnect. A rejected login is connect, reply check, login, disconnect |
| Lifecycle.OpenLifecycle | ftputil/src/main/java/ftputil/FtpClient.java:51-75 | open's calls are a legal path of the lifecycle machine. They end Ready exactly when open returns, and Released exactly when it disconnected. Any other failure is the exception connect or login threw, passed on unchanged |
| FtpClient.CloseAsWritten | ftputil/src/main/java/ftputil/FtpClient.java:78-81 | close as written: logout first; disconnect is called exactly when logout returned. When logout throws, close ends there with logout's exception; otherwise its outcome is disconnect's answer |
| Lifecycle.CloseAsWrittenLeaks | ftputil/src/main/java/ftputil/FtpClient.java:78-81 | close as written releases a Ready session exactly when logout returns. When logout throws, the session is left at LogoutIssued and the connection stays open |
| FtpClient.Close | ftputil/src/main/java/ftputil/FtpClient.java:78-81 | The corrected close calls logout and then disconnect, in that order, whatever logout did. It returns exactly when both return, and an exception from disconnect takes precedence |
| Lifecycle.CloseReleases | ftputil/src/main/java/ftputil/FtpClient.java:78-81 | The corrected close always takes a Ready session to Released |
| FtpClient.ListFiles | ftputil/src/main/java/ftputil/FtpClient.java:83-89 | listFiles makes one listing call and returns the library's listing unchanged: same entries, same order, no filtering. A listing failure propagates |
| FtpClient.DownloadFile | ftputil/src/main/java/ftputil/FtpClient.java:91-93 | downloadFile makes one retrieve into the given sink. It throws exactly when retrieve throws, and a false answer is ignored |
| FtpClient.TransferOne | ftputil/src/main/java/ftputil/FtpClient.java:107-113 | One pass of the loop: the progress line for file i+1 of N, a sink request for the bare name, a retrieve of the resolved path into that sink, then the sink's close. The sink is closed exactly when it was handed out. The pass completes exactly when nothing throws, whatever retrieve answers, and an exception from retrieve takes precedence over one from close |
| FtpClient.DownloadAllFiles | ftputil/src/main/java/ftputil/FtpClient.java:100-114 | The listing is the first call. A failed listing is the only call and its exception propagates. A listing with no file entries makes no other call |
| FtpClient.FileNames | ftputil/src/main/java/ftputil/FtpClient.java:102-105 | The names kept number at most the entries; which names they are is stated by FileNamesAreFiles |
| FtpClient.Transfers | ftputil/src/main/java/ftputil/FtpClient.java:107-114 | The loop from file k on: a loop that returns made four calls per remaining file, and a loop with a file left starts with that file's progress line "Downloading (k+1 of N):[name]" and its sink request. Its order and where it stops are stated by DownloadFollowsPlan |
| Progress.Message | ftputil/src/main/java/ftputil/FtpClient.java:108-109 | The progress line; it carries no contract of its own, and ParseMessage and MessageInjective state what it means |
| DownloadPlan.FileNamesAreFiles | ftputil/src/main/java/ftputil/FtpClient.java:102-105 | The names kept are the names of exactly the file entries, at strictly increasing listing positions. Every file entry is kept and no other entry is |
| DownloadPlan.DownloadFollowsPlan | ftputil/src/main/java/ftputil/FtpClient.java:100-114 | After a listing, the m progress lines and sink requests are those of the first m kept files, in order. The loop runs to the end exactly when every pass completes. Otherwise its last pass is the first one that fails, and it ends with that pass's exception, so the remaining files are not attempted |
| DownloadPlan.DownloadSucceeds | ftputil/src/main/java/ftputil/FtpClient.java:100-114 | A download that returns reported "Downloading (i of N):[name_i]" for i = 1..N. It requested one sink per bare name and retrieved resolve(dir, name_i) once per file, in listing order |
| DownloadPlan.AllCompleteReturns | ftputil/src/main/java/ftputil/FtpClient.java:107-114 | When the listing is obtained and every file's pass completes, the download returns |
| DownloadPlan.SinksScoped | ftputil/src/main/java/ftputil/FtpClient.java:111-113 | Whatever the library and the sinks answer, the calls after the listing follow the scoped-sink machine without misuse. Each sink is closed before the next progress line, including when retrieve throws. The run never ends holding an open sink, and a run that returns ends between files |
| DownloadPlan.TwoFiles | ftputil/src/main/java/ftputil/FtpClient.java:100-114 | A listing of two files whose passes both complete yields two progress lines, two sink requests and two retrievals, in order |
| DownloadPlan.TwoFileListing | ftputil/src/test/java/ftputil/FtpClientUnitTest.java:107-141 | The unit test's scenario: "/remote/path" holding fileOne.txt and fileTwo.txt, with a retrieve that answers false. It reports "Downloading (1 of 2):[fileOne.txt]" and then "Downloading (2 of 2):[fileTwo.txt]", requests both bare names, retrieves "/remote/path/fileOne.txt" and "/remote/path/fileTwo.txt", and returns |
| Lifecycle.DownloadKeepsReady | ftputil/src/main/java/ftputil/FtpClient.java:95-115 | downloadAllFiles makes only listing, transfer, sink and progress calls, so it leaves an open session Ready whatever happens |
| Lifecycle.SessionReleases | ftputil/src/main/java/ftputil/FtpClient.java:22-115 | A whole session (a successful open, a download, and the corrected close) ends Released, however the download ended |
| Progress.ParseMessage | ftputil/src/main/java/ftputil/FtpClient.java:108-109 | Every progress line reads back as the index, total and name it was formatted from |
| Progress.MessageInjective | ftputil/src/main/java/ftputil/FtpClient.java:108-109 | Two different files never get the same progress line |
| Decimal.ValueOfDec | ftputil/src/main/java/ftputil/FtpClient.java:108-109 | The decimal digits written for `%d` read back as the number |
| Decimal.IntToDec | ftputil/src/main/java/ftputil/FtpClient.java:59-60 | The port appended to an error message is written with a minus sign exactly when it is negative, followed by digits with no leading zero (a lone "0" for zero) that read back as its magnitude |

## Left out

- `CliParser.java` and `FtpUtil.java`: argument parsing, console output, local directories, file streams and timing. They are I/O glue around this class.
- The FTP protocol itself: sockets, data connections, listing parsing and byte transfer. The model takes the library's answers as inputs.
- The library's answers are fixed per session (per argument for listing and retrieval), and so are the sink provider's: `SinkProvider.open` answers per name and `close` per sink. The model therefore does not cover a library, an output provider or a stream whose answer to the same call changes between calls, although FtpUtil.java:78-87 opens a new stream on every call.
- The progress reporter is assumed not to throw. A throwing reporter would end the loop before the sink request.
- A provider that returns `null` is not modelled. Java's try-with-resources then skips the close.
- `Path.of` on a name it rejects is not modelled. `Path.resolve` and `toString` are the parameter `resolve`, so path equality is left to that function.
- `FtpClient.Open`: states only the first words of the error messages; `ErrorNamesServerAndPort` states the rest of the text. The server's part is the string it is given, because `URI.toString` is not modelled.
- `Decimal.Dec`: `%d` is modelled with ASCII digits. A locale with other digits is not modelled.
- `FtpClient.DownloadAllFiles`: the loop index is a Java `int`. A listing of more than 2^31 - 1 files is not modelled.

## Findings

| source | as written | input that shows it | evidently intended | confidence | as-written member | corrected member |
|---|---|---|---|---|---|---|
| ftputil/src/main/java/ftputil/FtpClient.java:78-81 | `close()` calls `logout()` and then `disconnect()` as two plain statements. An exception from `logout()` skips `disconnect()`, so the socket stays open | `lib.logout == Throws(IOException(..))`: the trace is `[Logout]` and the session stays at LogoutIssued | `disconnect()` in a `finally`, so that the connection is released on every exit path | medium, not executed | FtpClient.CloseAsWritten, Lifecycle.CloseAsWrittenLeaks | FtpClient.Close, Lifecycle.CloseReleases |
