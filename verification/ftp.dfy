/** The FTP library the client wraps (Apache Commons Net's FTPClient, FTPFile
    and FTPReply), seen only through what it answers. Nothing of the protocol is
    modelled: every answer of the library is an input, and every call the client
    makes on the library or on its callbacks is recorded as an Event. */
module Ftp {

  /** Java's `int`: ports and reply codes are 32-bit signed integers. */
  type Int32 = x: int | -0x8000_0000 <= x < 0x8000_0000

  /** A path in its string form (`Path.toString()`). */
  type Path = string

  /** The two kinds of exception the client and its collaborators can raise. */
  datatype Exception =
    | IOException(message: string)
    | RuntimeException(message: string)

  /** What a call does: it returns a value or throws an exception. */
  datatype Answer<+T> = Returns(value: T) | Throws(error: Exception)

  /** FTPFile's type field; only FILE_TYPE entries are files. */
  datatype Kind = FileType | DirectoryType | SymbolicLinkType | UnknownType

  /** One record of a remote listing. */
  datatype Entry = Entry(name: string, kind: Kind) {
    predicate IsFile() { kind == FileType }
  }

  /** An output stream handed out by the caller's sink provider. */
  datatype Sink = Sink(id: nat)

  /** One call made by the client, in the order it is made. */
  datatype Event =
    // calls on the FTP library
    | Connect(host: string, port: Int32)
    | GetReplyCode
    | Login(user: string, password: string)
    | EnterLocalPassiveMode
    | Logout
    | Disconnect
    | ListFiles(path: Path)
    | RetrieveFile(path: Path, sink: Sink)
    // calls on the caller's callbacks
    | Report(message: string)
    | RequestSink(name: Path)
    | CloseSink(sink: Sink)

  /** The library's answers. Calls made once per session are constants; calls
      that take a path answer as a function of their arguments. */
  datatype Library = Library(
    connect: Answer<()>,
    replyCode: Int32,
    login: Answer<bool>,
    logout: Answer<bool>,
    disconnect: Answer<()>,
    listFiles: Path -> Answer<seq<Entry>>,
    retrieveFile: (Path, Sink) -> Answer<bool>)

  /** The calls an operation made, and how it ended. */
  datatype Run<T> = Run(trace: seq<Event>, outcome: Answer<T>)

  /** FTPReply.isPositiveCompletion: the reply code is in 200..299. */
  predicate IsPositiveCompletion(code: int) {
    200 <= code < 300
  }

  /** Section 4.2 of RFC 959: a reply code is three digits, and a reply is a
      positive completion exactly when its first digit is 2. */
  lemma PositiveCompletionIsFirstDigitTwo(code: int)
    ensures IsPositiveCompletion(code) <==> 100 <= code <= 999 && code / 100 == 2
  {
    if 100 <= code <= 999 && code / 100 == 2 {
      assert 200 <= code < 300;
    }
    if IsPositiveCompletion(code) {
      assert code / 100 == 2;
    }
  }

  predicate StartsWith(s: string, prefix: string) {
    |prefix| <= |s| && s[..|prefix|] == prefix
  }
}
