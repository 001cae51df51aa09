/** The file content providers that back the file entries of a namespace
    (files.go). A provider answers a read with data or an error and
    ignores every write. */
module Files {
  import opened Base

  /** An error value returned by a provider; only its message is kept. */
  datatype FileError = FileError(msg: string)

  /** The (data, err) pair of a Read call: err == nil gives Data. */
  datatype ReadResult = Data(bytes: seq<Byte>) | ReadFailed(err: FileError)

  /** The three providers. A TextFile holds the bytes of its Go string; a
      FuncFile holds the function it was built with. */
  datatype File =
    | NopFile
    | TextFile(body: seq<Byte>)
    | FuncFile(fcn: () -> ReadResult)

  /** NewTextFile: a provider with static content. */
  function NewTextFile(content: seq<Byte>): (f: File)
    ensures f.TextFile? && f.body == content
  {
    TextFile(content)
  }

  /** NewFuncFile: a provider whose content is computed on every read. */
  function NewFuncFile(fcn: () -> ReadResult): (f: File)
    ensures f.FuncFile? && f.fcn == fcn
  {
    FuncFile(fcn)
  }

  /** Read, dispatched on the provider: a NopFile reads as empty, a TextFile
      as its body, a FuncFile as whatever its function returns. */
  function Read(f: File): (r: ReadResult)
    ensures f.NopFile? ==> r == Data([])
    ensures f.TextFile? ==> r == Data(f.body)
    ensures f.FuncFile? ==> r == f.fcn()
  {
    match f
    case NopFile => Data([])
    case TextFile(body) => Data(body)
    case FuncFile(fcn) => fcn()
  }

  /** Write: every provider uses the write of its embedded NopFile, which
      ignores the data and returns a nil error. The provider is returned
      alongside, unchanged, because no write alters it. */
  function Write(f: File, data: seq<Byte>): (r: (Option<FileError>, File))
    ensures r.0 == None && r.1 == f
  {
    (None, f)
  }

  /** A TextFile reads back exactly the content it was created with, however
      many writes it received in between. */
  lemma {:induction false} TextFileReadsBackContent(content: seq<Byte>, writes: seq<seq<Byte>>)
    ensures Read(AfterWrites(NewTextFile(content), writes)) == Data(content)
  {
    WritesChangeNothing(NewTextFile(content), writes);
  }

  /** The provider left after applying `writes` in order. */
  function AfterWrites(f: File, writes: seq<seq<Byte>>): File
    decreases |writes|
  {
    if writes == [] then f else AfterWrites(Write(f, writes[0]).1, writes[1..])
  }

  /** No sequence of writes changes a provider, so reads after writes are
      the reads before them. */
  lemma {:induction false} WritesChangeNothing(f: File, writes: seq<seq<Byte>>)
    ensures AfterWrites(f, writes) == f
    ensures Read(AfterWrites(f, writes)) == Read(f)
    decreases |writes|
  {
    if writes != [] {
      WritesChangeNothing(Write(f, writes[0]).1, writes[1..]);
    }
  }
}
