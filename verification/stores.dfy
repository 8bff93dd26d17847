/**
 The two search stores and the contract of their clients: external versions on
 keyword writes, replacement on vector writes, deletes that succeed on what is
 not there.
 */
module Stores {
  import opened Prelude
  import opened Errors

  datatype Document = Document(
    id: string, title: string, content: string, url: string, updatedAt: int, version: int)

  datatype Payload = Payload(title: string, version: int, url: Option<string>)

  datatype Point = Point(id: string, vector: seq<real>, payload: Payload)

  type Keyword = map<string, Document>

  type Vectors = map<string, Point>

  /** How one request to a remote system went. A failure may have taken effect
      before the answer was lost. */
  datatype Call = Succeeds | Fails(landed: bool, error: Error)

  datatype WriteResult = WriteApplied | WriteDuplicate | WriteStale

  const MaxIdBytes := 512

  /** White space beyond ASCII, as Unicode defines it. */
  predicate IsWideSpace(c: char) {
    || c == '\U{85}' || c == '\U{A0}' || c == '\U{1680}' || '\U{2000}' <= c <= '\U{200A}'
    || c == '\U{2028}' || c == '\U{2029}' || c == '\U{202F}' || c == '\U{205F}' || c == '\U{3000}'
  }

  predicate IsSpace(c: char) {
    c == ' ' || '\t' <= c <= '\r' || (c > '~' && IsWideSpace(c))
  }

  /** The length of a text in UTF-8. */
  function ByteLength(s: string): nat {
    if s == "" then 0
    else
      var c := Last(s);
      ByteLength(s[..|s| - 1]) + if c < '\U{80}' then 1 else if c < '\U{800}' then 2 else if c < '\U{10000}' then 3 else 4
  }

  function TrimLeft(s: string): string {
    if s != "" && IsSpace(s[0]) then TrimLeft(s[1..]) else s
  }

  function TrimRight(s: string): string {
    if s != "" && IsSpace(s[|s| - 1]) then TrimRight(s[..|s| - 1]) else s
  }

  function TrimSpace(s: string): string {
    TrimRight(TrimLeft(s))
  }

  predicate ValidKeywordId(id: string) {
    TrimSpace(id) != "" && ByteLength(id) <= MaxIdBytes
  }

  predicate ValidPointId(id: string) {
    TrimSpace(id) != ""
  }

  // ------------------------------------------------------------ trimming and lengths

  predicate White(s: string) {
    forall i :: 0 <= i < |s| ==> IsSpace(s[i])
  }

  /** t is what is left of s when white space is removed at both ends. */
  ghost predicate Trimmed(s: string, t: string) {
    && (exists i, j :: 0 <= i <= j <= |s| && t == s[i..j] && White(s[..i]) && White(s[j..]))
    && (t != "" ==> !IsSpace(t[0]) && !IsSpace(t[|t| - 1]))
  }

  lemma TrimMeaning(s: string, t: string)
    ensures t == TrimSpace(s) <==> Trimmed(s, t)
  {
    TrimTrims(s);
    if Trimmed(s, t) {
      TrimUnique(s, t);
    }
  }

  lemma TrimUnique(s: string, t: string)
    requires Trimmed(s, t)
    ensures t == TrimSpace(s)
  {
    var i, j :| 0 <= i <= j <= |s| && t == s[i..j] && White(s[..i]) && White(s[j..]);
    TrimInside(s[..i], t, s[j..]);
    Pieces(s, i, j);
  }

  lemma Pieces(s: string, i: nat, j: nat)
    requires i <= j <= |s|
    ensures s == s[..i] + (s[i..j] + s[j..])
  {
  }

  lemma TrimInside(a: string, t: string, b: string)
    requires White(a) && White(b) && (t != "" ==> !IsSpace(t[0]) && !IsSpace(t[|t| - 1]))
    ensures TrimSpace(a + (t + b)) == t
  {
    SkipsLeft(a, t + b);
    if t == "" {
      assert t + b == b && b + "" == b;
      SkipsLeft(b, "");
    } else {
      assert (t + b)[0] == t[0];
      SkipsRight(t, b);
    }
  }

  lemma {:induction false} SkipsLeft(a: string, s: string)
    requires White(a)
    ensures TrimLeft(a + s) == TrimLeft(s)
  {
    if a == "" {
      assert a + s == s;
    } else {
      assert (a + s)[0] == a[0] && (a + s)[1..] == a[1..] + s;
      SkipsLeft(a[1..], s);
    }
  }

  lemma {:induction false} SkipsRight(s: string, b: string)
    requires White(b)
    ensures TrimRight(s + b) == TrimRight(s)
  {
    if b == "" {
      assert s + b == s;
    } else {
      var n := |s + b| - 1;
      assert (s + b)[n] == b[|b| - 1] && (s + b)[..n] == s + b[..|b| - 1];
      SkipsRight(s, b[..|b| - 1]);
    }
  }

  lemma TrimTrims(s: string)
    ensures Trimmed(s, TrimSpace(s))
  {
    var i := LeftEnd(s);
    var j := RightEnd(TrimLeft(s));
    assert s[i..][..j] == s[i..i + j] && s[i..][j..] == s[i + j..];
    if j > 0 {
      assert TrimSpace(s)[0] == TrimLeft(s)[0];
    }
  }

  lemma {:induction false} LeftEnd(s: string) returns (i: nat)
    ensures i <= |s| && TrimLeft(s) == s[i..] && White(s[..i]) && (i < |s| ==> !IsSpace(s[i]))
  {
    if s != "" && IsSpace(s[0]) {
      i := LeftEnd(s[1..]);
      assert s[..i + 1] == [s[0]] + s[1..][..i];
      i := i + 1;
    } else {
      i := 0;
    }
  }

  lemma {:induction false} RightEnd(s: string) returns (j: nat)
    ensures j <= |s| && TrimRight(s) == s[..j] && White(s[j..]) && (j > 0 ==> !IsSpace(s[j - 1]))
  {
    j := |s|;
    if s != "" && IsSpace(s[|s| - 1]) {
      j := RightEnd(s[..|s| - 1]);
      assert s[j..] == s[..|s| - 1][j..] + [s[|s| - 1]];
    }
  }

  /** Which characters are white space, by code point. */
  lemma SpaceCodes(c: char)
    ensures
      IsSpace(c)
      <==> c as int in [0x09, 0x0A, 0x0B, 0x0C, 0x0D, 0x20, 0x85, 0xA0, 0x1680,
                        0x2000, 0x2001, 0x2002, 0x2003, 0x2004, 0x2005, 0x2006, 0x2007, 0x2008, 0x2009, 0x200A,
                        0x2028, 0x2029, 0x202F, 0x205F, 0x3000]
  {
  }

  lemma {:induction false} LengthOfCopies(c: char, n: nat)
    ensures ByteLength(seq(n, _ => c)) == n * ByteLength([c])
  {
    assert [c][..0] == "";
    if n > 0 {
      LengthOfCopies(c, n - 1);
      assert seq(n, _ => c)[..n - 1] == seq(n - 1, _ => c);
    }
  }

  /** An id may take 512 bytes: as many characters of one byte, fewer of longer ones. */
  lemma IdLimits(n: nat)
    requires n > 0
    ensures ValidKeywordId(seq(n, _ => 'a')) <==> n <= 512
    ensures ValidKeywordId(seq(n, _ => '\U{E9}')) <==> n <= 256
    ensures ValidKeywordId(seq(n, _ => '\U{20AC}')) <==> n <= 170
    ensures ValidKeywordId(seq(n, _ => '\U{1F600}')) <==> n <= 128
  {
    CopyLimit('a', n, 1);
    CopyLimit('\U{E9}', n, 2);
    CopyLimit('\U{20AC}', n, 3);
    CopyLimit('\U{1F600}', n, 4);
  }

  lemma CopyLimit(c: char, n: nat, width: nat)
    requires n > 0 && !IsSpace(c) && ByteLength([c]) == width
    ensures ValidKeywordId(seq(n, _ => c)) <==> n * width <= 512
  {
    LengthOfCopies(c, n);
    var s := seq(n, _ => c);
    assert s[0..n] == s && White(s[..0]) && White(s[n..]);
    TrimMeaning(s, s);
  }

  /** An id is valid for the vector index exactly when it is not all white space, and for
      the keyword index when it is not too long either. */
  lemma ValidIds(id: string)
    ensures ValidPointId(id) <==> !White(id)
    ensures ValidKeywordId(id) <==> !White(id) && ByteLength(id) <= 512
  {
    BlankIsWhite(id);
  }

  lemma BlankIsWhite(s: string)
    ensures TrimSpace(s) == "" <==> White(s)
  {
    if White(s) {
      assert s[0..0] == "" && s[..0] == "" && s[0..] == s;
      TrimMeaning(s, "");
    }
    if TrimSpace(s) == "" {
      TrimTrims(s);
      var i, j :| 0 <= i <= j <= |s| && "" == s[i..j] && White(s[..i]) && White(s[j..]);
      assert s == s[..i] + s[j..];
    }
  }

  const InvalidDocument := Wrapped(Value(ErrInvalidDocument))

  const InvalidPoint := Wrapped(Value(ErrInvalidPoint))

  /** OpenSearch refuses a versioned write that is not newer than the version it
      holds. A document held without a version is replaced. */
  predicate Refused(k: Keyword, doc: Document) {
    doc.version > 0 && doc.id in k && k[doc.id].version > 0 && doc.version <= k[doc.id].version
  }

  /** What a refused write means, given what reading the version back said. */
  function ClassifyConflict(version: Result<Option<int>, Error>, doc: Document): WriteResult {
    match version
    case Err(_) => WriteDuplicate
    case Ok(None) => WriteStale
    case Ok(Some(v)) => if v > doc.version then WriteStale else WriteDuplicate
  }

  function VersionOf(k: Keyword, id: string): Option<int> {
    if id in k then Some(k[id].version) else None
  }

  function ReadVersion(k: Keyword, id: string, read: Call): Result<Option<int>, Error> {
    match read
    case Succeeds => Ok(VersionOf(k, id))
    case Fails(_, e) => Err(e)
  }

  // --------------------------------------------------- the keyword index client

  class KeywordIndex {
    var documents: Keyword

    method IndexDocument(doc: Document, write: Call, read: Call) returns (r: Result<WriteResult, Error>)
      modifies this
      ensures !ValidKeywordId(doc.id) ==> r == Err(InvalidDocument) && documents == old(documents)
      ensures ValidKeywordId(doc.id) && write.Fails? ==>
        && r == Err(Wrapped(write.error))
        && documents
           == if write.landed && !Refused(old(documents), doc) then old(documents)[doc.id := doc] else old(documents)
      ensures ValidKeywordId(doc.id) && write.Succeeds? && !Refused(old(documents), doc) ==>
        r == Ok(WriteApplied) && documents == old(documents)[doc.id := doc]
      ensures ValidKeywordId(doc.id) && write.Succeeds? && Refused(old(documents), doc) ==>
        && documents == old(documents)
        && r == Ok(if read.Succeeds? && documents[doc.id].version > doc.version then WriteStale else WriteDuplicate)
    {
      if !ValidKeywordId(doc.id) {
        return Err(InvalidDocument);
      }
      var refused := Refused(documents, doc);
      if !refused && (write.Succeeds? || write.landed) {
        documents := documents[doc.id := doc];
      }
      if write.Fails? {
        return Err(Wrapped(write.error));
      }
      if !refused {
        return Ok(WriteApplied);
      }
      var version := DocumentVersion(doc.id, read);
      r := Ok(ClassifyConflict(version, doc));
    }

    method DocumentVersion(id: string, read: Call) returns (r: Result<Option<int>, Error>)
      ensures ValidKeywordId(id) ==> r == ReadVersion(documents, id, read)
      ensures !ValidKeywordId(id) ==> r == Err(InvalidDocument)
    {
      if !ValidKeywordId(id) {
        return Err(InvalidDocument);
      }
      match read {
        case Fails(_, e) => r := Err(e);
        case Succeeds => r := Ok(if id in documents then Some(documents[id].version) else None);
      }
    }

    method DeleteDocument(id: string, remove: Call) returns (r: Option<Error>)
      modifies this
      ensures r.None? <==> ValidKeywordId(id) && remove.Succeeds?
      ensures r.Some? ==> r.value == if ValidKeywordId(id) then Wrapped(remove.error) else InvalidDocument
      ensures documents
        == if ValidKeywordId(id) && (remove.Succeeds? || remove.landed) then old(documents) - {id} else old(documents)
    {
      if !ValidKeywordId(id) {
        return Some(InvalidDocument);
      }
      if remove.Succeeds? || remove.landed {
        documents := documents - {id};
      }
      r := if remove.Succeeds? then None else Some(Wrapped(remove.error));
    }
  }

  // ---------------------------------------------------- the vector index client

  class VectorIndex {
    var points: Vectors

    method Upsert(p: Point, write: Call) returns (r: Option<Error>)
      modifies this
      ensures r.None? <==> ValidPointId(p.id) && write.Succeeds?
      ensures r.Some? ==> r.value == if ValidPointId(p.id) then Wrapped(write.error) else InvalidPoint
      ensures points
        == if ValidPointId(p.id) && (write.Succeeds? || write.landed) then old(points)[p.id := p] else old(points)
    {
      if !ValidPointId(p.id) {
        return Some(InvalidPoint);
      }
      if write.Succeeds? || write.landed {
        points := points[p.id := p];
      }
      r := if write.Succeeds? then None else Some(Wrapped(write.error));
    }

    method Delete(id: string, remove: Call) returns (r: Option<Error>)
      modifies this
      ensures r.None? <==> ValidPointId(id) && remove.Succeeds?
      ensures r.Some? ==> r.value == if ValidPointId(id) then Wrapped(remove.error) else InvalidPoint
      ensures points
        == if ValidPointId(id) && (remove.Succeeds? || remove.landed) then old(points) - {id} else old(points)
    {
      if !ValidPointId(id) {
        return Some(InvalidPoint);
      }
      if remove.Succeeds? || remove.landed {
        points := points - {id};
      }
      r := if remove.Succeeds? then None else Some(Wrapped(remove.error));
    }
  }
}
