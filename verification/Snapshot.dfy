/**
  Reading one bounded snapshot of a file that may change meanwhile
  (`_read_file_snapshot`, watchers/code_watcher.py, lines 98-144).
*/
module Snapshot {
  import opened Schema

  const MAX_FILE_SIZE_BYTES: nat := 1024 * 1024
  const CHUNK: nat := 64 * 1024

  type Byte = x: int | 0 <= x < 256

  datatype Stat = Stat(regular: bool, device: int, inode: int, size: nat, mtime: int)

  /** One read: how much was asked for and what came back. */
  datatype Read = Read(asked: nat, data: seq<Byte>)

  datatype Error = OpenFailed | StatFailed | NotRegular | TooLarge | ReadFailed | GrewTooLarge | Changed

  /** What the operating system is going to answer; nothing ties the answers to one content. */
  datatype Script = Script(
    opens: bool,
    before: Option<Stat>,
    answers: nat -> Option<seq<Byte>>,
    after: Option<Stat>)

  function Smaller(a: nat, b: nat): nat {
    if a <= b then a else b
  }

  /** An open descriptor, with a record of what was done to it. */
  class Descriptor {
    const script: Script
    var log: seq<Read>
    var closes: nat

    constructor (script: Script)
      ensures this.script == script && log == [] && closes == 0
    {
      this.script := script;
      log, closes := [], 0;
    }

    /** os.read returns at most what was asked for, or raises. */
    method ReadSome(asked: nat) returns (data: Option<seq<Byte>>)
      modifies this`log
      ensures data.None? ==> log == old(log)
      ensures data.Some? ==> |data.value| <= asked && log == old(log) + [Read(asked, data.value)]
      ensures var answer := script.answers(|old(log)|);
        data == (if answer.None? then None else Some(answer.value[..Smaller(asked, |answer.value|)]))
    {
      var answer := script.answers(|log|);
      if answer.None? { return None; }
      data := Some(answer.value[..Smaller(asked, |answer.value|)]);
      log := log + [Read(asked, data.value)];
    }

    method Close()
      modifies this`closes
      ensures closes == old(closes) + 1
    {
      closes := closes + 1;
    }
  }

  /** Everything the reads brought back, in order. */
  function Joined(log: seq<Read>): seq<Byte> {
    if log == [] then [] else Joined(log[..|log| - 1]) + log[|log| - 1].data
  }

  predicate SameFile(a: Stat, b: Stat) {
    a.device == b.device && a.inode == b.inode && a.size == b.size && a.mtime == b.mtime
  }

  /** Every read asked for something, for no more than a chunk, and never past the limit plus one byte. */
  predicate Bounded(log: seq<Read>): (b: bool)
    ensures b ==> |Joined(log)| <= MAX_FILE_SIZE_BYTES + 1
  {
    log == [] ||
    (var before, last := log[..|log| - 1], log[|log| - 1];
     && Bounded(before)
     && 1 <= last.asked <= CHUNK && |Joined(before)| + last.asked <= MAX_FILE_SIZE_BYTES + 1
     && |last.data| <= last.asked)
  }

  /** The log is what the operating system answered, cut to what was asked. */
  predicate Answered(s: Script, log: seq<Read>) {
    log == [] ||
    (var before, last := log[..|log| - 1], log[|log| - 1];
     && Answered(s, before)
     && s.answers(|before|).Some?
     && var answer := s.answers(|before|).value;
        last.data == answer[..Smaller(last.asked, |answer|)])
  }

  /** Every read asked for 64 KiB, or for what is left of one byte more than a MiB. */
  predicate AskedInChunks(log: seq<Read>) {
    log == [] ||
    (var before, last := log[..|log| - 1], log[|log| - 1];
     && AskedInChunks(before)
     && last.asked == if 1048577 - |Joined(before)| < 65536 then 1048577 - |Joined(before)| else 65536)
  }

  /** The last read came back empty. */
  predicate ReadToEnd(log: seq<Read>) {
    log != [] && log[|log| - 1].data == []
  }

  predicate NeverEmpty(log: seq<Read>) {
    forall k :: 0 <= k < |log| ==> log[k].data != []
  }

  /** Read to the end of file, or stop at the first problem. */
  method ReadAll(fd: Descriptor) returns (r: Result<seq<Byte>, Error>)
    requires fd.log == []
    modifies fd`log
    ensures Bounded(fd.log) && Answered(fd.script, fd.log) && AskedInChunks(fd.log)
    ensures r.Ok? ==>
      && |r.value| <= MAX_FILE_SIZE_BYTES && r.value == Joined(fd.log)
      && ReadToEnd(fd.log) && NeverEmpty(fd.log[..|fd.log| - 1])
    ensures r.Err? ==> NeverEmpty(fd.log)
    ensures r.Err? ==>
      || (r.error == ReadFailed && fd.script.answers(|fd.log|).None?)
      || (r.error == GrewTooLarge && |Joined(fd.log)| == MAX_FILE_SIZE_BYTES + 1)
  {
    var content: seq<Byte> := [];
    while true
      invariant |content| <= MAX_FILE_SIZE_BYTES && content == Joined(fd.log)
      invariant Bounded(fd.log) && Answered(fd.script, fd.log) && AskedInChunks(fd.log) && NeverEmpty(fd.log)
      decreases MAX_FILE_SIZE_BYTES - |content|
    {
      ghost var before := fd.log;
      var chunk := fd.ReadSome(Smaller(CHUNK, MAX_FILE_SIZE_BYTES + 1 - |content|));
      if chunk.None? { return Err(ReadFailed); }
      assert fd.log[..|before|] == before;
      if chunk.value == [] { return Ok(content); }
      content := content + chunk.value;
      if |content| > MAX_FILE_SIZE_BYTES { return Err(GrewTooLarge); }
    }
  }

  /** Every read returned the bytes of `content` where the previous one stopped, and nothing only at its end. */
  predicate ReadsOf(log: seq<Read>, content: seq<Byte>) {
    log == [] ||
    (var before, data := log[..|log| - 1], log[|log| - 1].data;
     && ReadsOf(before, content)
     && |Joined(before)| + |data| <= |content|
     && data == content[|Joined(before)|..|Joined(before)| + |data|]
     && (data == [] ==> |Joined(before)| == |content|))
  }

  lemma {:induction false} JoinedOfContent(log: seq<Read>, content: seq<Byte>)
    requires ReadsOf(log, content)
    ensures |Joined(log)| <= |content| && Joined(log) == content[..|Joined(log)|]
    ensures log != [] && log[|log| - 1].data == [] ==> Joined(log) == content
  {
    if log != [] {
      JoinedOfContent(log[..|log| - 1], content);
    }
  }

  /** The file is regular, of the size of `content`, and looks the same before and after. */
  predicate Unchanging(s: Script, content: seq<Byte>) {
    && s.opens && s.before.Some? && s.after.Some? && SameFile(s.before.value, s.after.value)
    && s.before.value.regular && s.before.value.size == |content| <= MAX_FILE_SIZE_BYTES
  }

  /**
    Against any answers: the descriptor is closed once, reads stay bounded, and
    a snapshot has the size both stats report.  Of an unchanging file within the
    limit it is the content, however short the reads are, unless one fails.
  */
  method ReadFileSnapshot(fd: Descriptor) returns (r: Result<(seq<Byte>, Stat), Error>)
    requires fd.log == [] && fd.closes == 0
    modifies fd
    ensures fd.closes == if fd.script.opens then 1 else 0
    ensures Bounded(fd.log) && Answered(fd.script, fd.log) && AskedInChunks(fd.log)
    ensures r.Ok? ==>
      && fd.script.before.Some? && fd.script.after == Some(r.value.1)
      && fd.script.before.value.regular && SameFile(fd.script.before.value, r.value.1)
      && |r.value.0| == r.value.1.size <= MAX_FILE_SIZE_BYTES
      && r.value.0 == Joined(fd.log)
    // In the fields themselves: which files are refused, and when what was read is.
    ensures r.Ok? ==>
      && var a, b := fd.script.before.value, fd.script.after.value;
         a.device == b.device && a.inode == b.inode && a.size == b.size && a.mtime == b.mtime
    ensures ReadToEnd(fd.log) && fd.script.before.Some? && fd.script.after.Some? ==>
      var a, b := fd.script.before.value, fd.script.after.value;
      if a.device == b.device && a.inode == b.inode && a.size == b.size && a.mtime == b.mtime && |Joined(fd.log)| == b.size
      then r == Ok((Joined(fd.log), b)) else r == Err(Changed)
    ensures fd.script.opens && fd.script.before.Some? ==>
      && (r == Err(NotRegular) <==> !fd.script.before.value.regular)
      && (r == Err(TooLarge) <==> fd.script.before.value.regular && fd.script.before.value.size > 1048576)
    ensures r.Err? && r.error in {NotRegular, TooLarge, OpenFailed} ==> fd.log == []
    ensures forall content :: Unchanging(fd.script, content) && ReadsOf(fd.log, content) ==>
      if r.Ok? then r.value.0 == content else r.error == ReadFailed && fd.script.answers(|fd.log|).None?
  {
    if !fd.script.opens { return Err(OpenFailed); }
    r := ReadOpened(fd);
    fd.Close();
  }

  /** The body of the try block. */
  method ReadOpened(fd: Descriptor) returns (r: Result<(seq<Byte>, Stat), Error>)
    requires fd.log == []
    modifies fd`log
    ensures Bounded(fd.log) && Answered(fd.script, fd.log) && AskedInChunks(fd.log)
    ensures r.Ok? ==>
      && fd.script.before.Some? && fd.script.after == Some(r.value.1)
      && fd.script.before.value.regular && SameFile(fd.script.before.value, r.value.1)
      && |r.value.0| == r.value.1.size <= MAX_FILE_SIZE_BYTES
      && r.value.0 == Joined(fd.log)
    // In the fields themselves: which files are refused, and when what was read is.
    ensures r.Ok? ==>
      && var a, b := fd.script.before.value, fd.script.after.value;
         a.device == b.device && a.inode == b.inode && a.size == b.size && a.mtime == b.mtime
    ensures ReadToEnd(fd.log) && fd.script.before.Some? && fd.script.after.Some? ==>
      var a, b := fd.script.before.value, fd.script.after.value;
      if a.device == b.device && a.inode == b.inode && a.size == b.size && a.mtime == b.mtime && |Joined(fd.log)| == b.size
      then r == Ok((Joined(fd.log), b)) else r == Err(Changed)
    ensures fd.script.before.Some? ==>
      && (r == Err(NotRegular) <==> !fd.script.before.value.regular)
      && (r == Err(TooLarge) <==> fd.script.before.value.regular && fd.script.before.value.size > 1048576)
    ensures r.Err? && r.error in {NotRegular, TooLarge} ==> fd.log == []
    ensures r.Err? ==> r.error != OpenFailed
    ensures forall content :: Unchanging(fd.script, content) && ReadsOf(fd.log, content) ==>
      if r.Ok? then r.value.0 == content else r.error == ReadFailed && fd.script.answers(|fd.log|).None?
  {
    var before := fd.script.before;
    if before.None? { return Err(StatFailed); }
    if !before.value.regular { return Err(NotRegular); }
    if before.value.size > MAX_FILE_SIZE_BYTES { return Err(TooLarge); }
    var content := ReadAll(fd);
    forall c | ReadsOf(fd.log, c)
      ensures |Joined(fd.log)| <= |c|
      ensures fd.log != [] && fd.log[|fd.log| - 1].data == [] ==> Joined(fd.log) == c
    {
      JoinedOfContent(fd.log, c);
    }
    if content.Err? { return Err(content.error); }
    var after := fd.script.after;
    if after.None? { return Err(StatFailed); }
    if !SameFile(before.value, after.value) || |content.value| != after.value.size { return Err(Changed); }
    r := Ok((content.value, after.value));
  }
}
