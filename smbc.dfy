/** The SMB source as reached through libsmbclient: its credentials and
    their defaults, its JSON form and its censored copy, how a file in it
    is presented to people (a Windows path) and as a URL, and the
    read-only file object wrapped around an open remote file. The domain
    a UNC implies (`compute_domain`) is a function given to the model. */
module Smbc {
  import opened Wrappers

  type byte = bv8

  /** `SMBCSource`: the UNC, the credentials and the drive letter. */
  datatype SmbcSource = SmbcSource(unc: string, user: Option<string>, password: Option<string>,
                                   domain: Option<string>, driveletter: Option<string>)

  /** The constructor: a missing domain is the one the UNC implies. */
  function NewSource(unc: string, user: Option<string>, password: Option<string>, domain: Option<string>,
                     driveletter: Option<string>, computeDomain: string -> Option<string>): (s: SmbcSource)
    ensures s.unc == unc && s.user == user && s.password == password && s.driveletter == driveletter
    ensures s.domain == (if domain.Some? then domain else computeDomain(unc))
  {
    SmbcSource(unc, user, password, if domain.Some? then domain else computeDomain(unc), driveletter)
  }

  /** A source the constructor could have built: its domain is missing
      only when the UNC implies none. */
  predicate Constructed(s: SmbcSource, computeDomain: string -> Option<string>) {
    s.domain.None? ==> computeDomain(s.unc).None?
  }

  /** Python's `x or default` on an optional string: `None` and "" give
      the default. */
  function OrElse(x: Option<string>, default: string): (r: string)
    ensures x.Some? && x.value != "" ==> r == x.value
    ensures x.None? || x.value == "" ==> r == default
  {
    if x.Some? && x.value != "" then x.value else default
  }

  /** `__auth_handler`: (workgroup, username, password) for libsmbclient. */
  function AuthHandler(s: SmbcSource): (r: (string, string, string))
    ensures r.0 == OrElse(s.domain, "WORKGROUP") && r.1 == OrElse(s.user, "GUEST") && r.2 == OrElse(s.password, "")
    ensures r.0 != "" && r.1 != ""
  {
    (OrElse(s.domain, "WORKGROUP"), OrElse(s.user, "GUEST"), OrElse(s.password, ""))
  }

  /** `SMBCSource.censor`: the UNC and drive letter without the
      credentials; the domain is recomputed from the UNC. */
  function Censor(s: SmbcSource, computeDomain: string -> Option<string>): (c: SmbcSource)
    ensures c.unc == s.unc && c.driveletter == s.driveletter
    ensures c.user.None? && c.password.None? && c.domain == computeDomain(s.unc)
    ensures Constructed(c, computeDomain)
  {
    NewSource(s.unc, None, None, None, s.driveletter, computeDomain)
  }

  /** The JSON object `to_json_object` builds: the type label and the five
      properties. */
  datatype JsonObject = JsonObject(typeLabel: string, unc: string, user: Option<string>, password: Option<string>,
                                   domain: Option<string>, driveletter: Option<string>)

  const TypeLabel: string := "smbc"

  function ToJson(s: SmbcSource): (j: JsonObject)
    ensures j.typeLabel == TypeLabel
  {
    JsonObject(TypeLabel, s.unc, s.user, s.password, s.domain, s.driveletter)
  }

  /** `from_json_object`: goes through the constructor, so the source it
      gives back could have been constructed, keeps every stored property
      and fills in a missing domain from the UNC. */
  function FromJson(j: JsonObject, computeDomain: string -> Option<string>): (s: SmbcSource)
    ensures Constructed(s, computeDomain)
    ensures s.unc == j.unc && s.user == j.user && s.password == j.password && s.driveletter == j.driveletter
    ensures j.domain.Some? ==> s.domain == j.domain
  {
    NewSource(j.unc, j.user, j.password, j.domain, j.driveletter, computeDomain)
  }

  /** Every source the constructor builds survives the JSON round trip. */
  lemma JsonRoundTrip(s: SmbcSource, computeDomain: string -> Option<string>)
    requires Constructed(s, computeDomain)
    ensures FromJson(ToJson(s), computeDomain) == s
  {
  }

  /** A source whose stored domain is missing though its UNC implies one
      comes back with the implied domain. */
  lemma JsonFillsDomain(s: SmbcSource, computeDomain: string -> Option<string>)
    requires s.domain.None? && computeDomain(s.unc).Some?
    ensures FromJson(ToJson(s), computeDomain) == s.(domain := computeDomain(s.unc))
  {
  }

  /** `str.replace("/", "\\")`. */
  function Backslashed(s: string): (r: string)
    ensures |r| == |s|
    ensures forall i :: 0 <= i < |s| ==> r[i] == (if s[i] == '/' then '\\' else s[i])
  {
    if s == [] then [] else [if s[0] == '/' then '\\' else s[0]] + Backslashed(s[1..])
  }

  /** `s` with a "/" added unless it already ends with one. */
  function WithSlash(s: string): (r: string)
    requires s != []
    ensures r == s || r == s + "/"
    ensures r[|r| - 1] == '/'
  {
    if s[|s| - 1] != '/' then s + "/" else s
  }

  /** A file in an SMB source. */
  datatype SmbcHandle = SmbcHandle(source: SmbcSource, relativePath: string)

  /** The index error raised by `p[-1]` on an empty UNC. */
  datatype PresentationError = EmptyUnc

  /** `SMBCHandle.presentation`: fails only for an empty UNC and no drive
      letter, holds no "/", and ends with the path in backslashes. */
  function Presentation(h: SmbcHandle): (r: Result<string, PresentationError>)
    ensures r.Err? <==> (h.source.driveletter.None? || h.source.driveletter.value == "") && h.source.unc == []
    ensures r.Ok? ==> '/' !in r.value
  {
    var d := h.source.driveletter;
    var p := if d.Some? && d.value != "" then d.value + ":" else h.source.unc;
    if p == [] then Err(EmptyUnc)
    else
      var v := Backslashed(WithSlash(p) + h.relativePath);
      BackslashedAppend(WithSlash(p), h.relativePath);
      assert forall i :: 0 <= i < |v| ==> v[i] != '/';
      Ok(v)
  }

  /** With a drive letter the presentation is "D:\" and the path with
      backslashes. */
  lemma PresentationWithDrive(h: SmbcHandle)
    requires h.source.driveletter.Some? && h.source.driveletter.value != ""
    ensures Presentation(h) == Ok(Backslashed(h.source.driveletter.value) + ":\\" + Backslashed(h.relativePath))
  {
    var d := h.source.driveletter.value;
    var rel := h.relativePath;
    assert (d + ":")[|d + ":"| - 1] == ':';
    assert WithSlash(d + ":") + rel == d + (":/" + rel);
    BackslashedAppend(d, ":/" + rel);
    BackslashedAppend(":/", rel);
    assert Backslashed(":/") == ":\\";
    assert Backslashed(d) + (":\\" + Backslashed(rel)) == Backslashed(d) + ":\\" + Backslashed(rel);
  }

  /** Without a drive letter it is the UNC, with a trailing separator, and
      the path, all with backslashes; and it fails only for an empty UNC. */
  lemma PresentationWithoutDrive(h: SmbcHandle)
    requires h.source.driveletter.None? || h.source.driveletter.value == ""
    ensures h.source.unc == [] <==> Presentation(h).Err?
    ensures h.source.unc != [] ==>
      Presentation(h) == Ok(Backslashed(WithSlash(h.source.unc)) + Backslashed(h.relativePath))
  {
    if h.source.unc != [] {
      BackslashedAppend(WithSlash(h.source.unc), h.relativePath);
    }
  }

  /** A presentation never holds a "/". */
  lemma PresentationHasNoSlash(h: SmbcHandle)
    requires Presentation(h).Ok?
    ensures '/' !in Presentation(h).value
  {
    var r := Presentation(h).value;
    assert forall i :: 0 <= i < |r| ==> r[i] != '/';
  }

  lemma {:induction false} BackslashedAppend(a: string, b: string)
    ensures Backslashed(a + b) == Backslashed(a) + Backslashed(b)
  {
    var l, r := Backslashed(a + b), Backslashed(a) + Backslashed(b);
    assert |l| == |r|;
    forall i | 0 <= i < |l| ensures l[i] == r[i] {
      if i < |a| {
        assert (a + b)[i] == a[i];
      } else {
        assert (a + b)[i] == b[i - |a|];
      }
    }
  }

  /** `SMBCHandle.presentation_url`. */
  function PresentationUrl(h: SmbcHandle): (r: string)
    ensures r == "file:" + h.source.unc + (if h.source.unc != [] && h.source.unc[|h.source.unc| - 1] == '/' then "" else "/") + h.relativePath
  {
    WithSlash("file:" + h.source.unc) + h.relativePath
  }

  /** The drive letter plays no part in the URL. */
  lemma PresentationUrlIgnoresDrive(h: SmbcHandle, d: Option<string>)
    ensures PresentationUrl(h.(source := h.source.(driveletter := d))) == PresentationUrl(h)
  {
  }

  /** `SMBCHandle.censor`: the same path in the censored source. */
  function CensorHandle(h: SmbcHandle, computeDomain: string -> Option<string>): (c: SmbcHandle)
    ensures c.relativePath == h.relativePath && c.source == Censor(h.source, computeDomain)
  {
    SmbcHandle(Censor(h.source, computeDomain), h.relativePath)
  }

  /** Censoring changes neither how a file is presented nor its URL. */
  lemma CensorKeepsPresentation(h: SmbcHandle, computeDomain: string -> Option<string>)
    ensures Presentation(CensorHandle(h, computeDomain)) == Presentation(h)
    ensures PresentationUrl(CensorHandle(h, computeDomain)) == PresentationUrl(h)
  {
  }

  /** An open remote file, as libsmbclient serves it: its bytes, its
      position, and whether its `close` fails. */
  class RemoteFile {
    const content: seq<byte>
    var pos: nat
    const closeFails: bool

    constructor (content: seq<byte>, closeFails: bool)
      ensures this.content == content && pos == 0 && this.closeFails == closeFails
    {
      this.content := content;
      pos := 0;
      this.closeFails := closeFails;
    }

    /** `read(n)`: up to `n` bytes from the position on. */
    method Read(n: nat) returns (data: seq<byte>)
      modifies this
      ensures data == ReadFrom(content, old(pos), n)
      ensures pos == old(pos) + |data|
    {
      if pos >= |content| {
        data := [];
      } else {
        var end := if pos + n <= |content| then pos + n else |content|;
        data := content[pos..end];
        pos := end;
      }
    }

    /** `lseek(offset, whence)`: the new position, or -1 for a bad whence
        or a position before the start. */
    method Lseek(offset: int, whence: int) returns (r: int)
      modifies this
      ensures r == SeekTarget(old(pos), |content|, offset, whence)
      ensures r >= 0 ==> pos == r
      ensures r < 0 ==> pos == old(pos)
    {
      r := SeekTarget(pos, |content|, offset, whence);
      if r >= 0 {
        pos := r;
      }
    }
  }

  /** The bytes a read of `n` from `pos` gets: at most `n`, fewer at the
      end of the file, none past it. */
  function ReadFrom(content: seq<byte>, pos: nat, n: nat): (data: seq<byte>)
    ensures |data| <= n
    ensures pos + |data| <= |content| || data == []
    ensures forall i :: 0 <= i < |data| ==> data[i] == content[pos + i]
    ensures pos + n <= |content| ==> |data| == n
  {
    if pos >= |content| then [] else content[pos..if pos + n <= |content| then pos + n else |content|]
  }

  /** Where `lseek` lands from `pos` in a file of `size` bytes: -1 for a
      bad whence or a negative target. */
  function SeekTarget(pos: nat, size: nat, offset: int, whence: int): (r: int)
    ensures r == -1 || r >= 0
    ensures r >= 0 ==> whence in {0, 1, 2}
    ensures whence == 0 && offset >= 0 ==> r == offset
    ensures whence == 1 && offset == 0 ==> r == pos
  {
    var base := if whence == 0 then 0 else if whence == 1 then pos else size;
    if whence !in {0, 1, 2} || base + offset < 0 then -1 else base + offset
  }

  /** What the wrapper raises: `TypeError` for a write, `IOError` for a
      failed seek, `AttributeError` for use after close, and the error of
      the remote `close`. */
  datatype FileError = ReadOnly | LseekFailed | Closed | CloseFailed

  /** `_SMBCFile`: a read-only raw stream over a remote file. */
  class SmbcFile {
    var file: RemoteFile?

    constructor (f: RemoteFile)
      ensures file == f
    {
      file := f;
    }

    predicate Readable() { true }
    predicate Writable() { false }
    predicate Seekable() { true }

    /** `readinto`: read at most `b.Length` bytes into the front of `b`. */
    method ReadInto(b: array<byte>) returns (r: Result<nat, FileError>)
      modifies b, file
      ensures file == old(file)
      ensures old(file) == null ==> r == Err(Closed) && b[..] == old(b[..])
      ensures old(file) != null ==>
        (r.Ok? && r.value == |ReadFrom(file.content, old(file.pos), b.Length)| &&
         b[..r.value] == ReadFrom(file.content, old(file.pos), b.Length) &&
         b[r.value..] == old(b[r.value..]) &&
         file.pos == old(file.pos) + r.value)
    {
      if file == null {
        return Err(Closed);
      }
      var data := file.Read(b.Length);
      var count := |data|;
      var i := 0;
      while i < count
        modifies b
        invariant 0 <= i <= count
        invariant b[..i] == data[..i]
        invariant b[i..] == old(b[i..])
      {
        b[i] := data[i];
        i := i + 1;
      }
      assert data[..count] == data;
      r := Ok(count);
    }

    /** `write`: always refused. */
    method Write(bytes: seq<byte>) returns (r: Result<nat, FileError>)
      ensures r == Err(ReadOnly)
    {
      r := Err(ReadOnly);
    }

    /** `truncate`: always refused. */
    method Truncate(n: Option<nat>) returns (r: Result<nat, FileError>)
      ensures r == Err(ReadOnly)
    {
      r := Err(ReadOnly);
    }

    /** `seek`. */
    method Seek(offset: int, whence: int) returns (r: Result<nat, FileError>)
      modifies file
      ensures file == old(file)
      ensures old(file) == null ==> r == Err(Closed)
      ensures old(file) != null ==>
        var t := SeekTarget(old(file.pos), |file.content|, offset, whence);
        r == (if t >= 0 then Ok(t) else Err(LseekFailed)) && file.pos == (if t >= 0 then t else old(file.pos))
    {
      if file == null {
        return Err(Closed);
      }
      var t := file.Lseek(offset, whence);
      if t != -1 {
        r := Ok(t);
      } else {
        r := Err(LseekFailed);
      }
    }

    /** `tell`: a seek by nothing from the current position. */
    method Tell() returns (r: Result<nat, FileError>)
      modifies file
      ensures file == old(file)
      ensures old(file) == null ==> r == Err(Closed)
      ensures old(file) != null ==> r == Ok(old(file.pos)) && file.pos == old(file.pos)
    {
      r := Seek(0, 1);
    }

    /** `close`: the reference is dropped even when the remote close
        fails; a second close does nothing. */
    method Close() returns (raised: Option<FileError>)
      modifies this
      ensures file == null
      ensures raised == (if old(file) != null && old(file).closeFails then Some(CloseFailed) else None)
    {
      raised := None;
      if file != null {
        if file.closeFails {
          raised := Some(CloseFailed);
        }
        file := null;
      }
    }
  }

  /** A read-only wrapper: it reads and seeks but never writes. */
  lemma Capabilities(f: SmbcFile)
    ensures f.Readable() && f.Seekable() && !f.Writable()
  {
  }
}
