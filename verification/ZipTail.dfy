/** Reading the size of a binary from the last bytes of a ZIP archive: `zipBinarySize` of
    scripts/binary-size.ts, against archives laid out as in sections 4.3.12 and 4.3.16 of
    PKWARE APPNOTE.TXT. */
module ZipTail {
  import opened Wrappers
  import opened LittleEndian

  const EOCD_SIGNATURE := 0x06054b50
  const CENTRAL_SIGNATURE := 0x02014b50
  const SLASH: Byte := 0x2f

  // ---------------------------------------------------------------- the archive

  /** One entry of the central directory: the 46 fixed bytes of its header and three variable
      fields whose lengths they give. */
  datatype Member = Member(fixed: seq<Byte>, name: seq<Byte>, extra: seq<Byte>, comment: seq<Byte>)

  ghost predicate ValidMember(m: Member) {
    && |m.fixed| == 46 && U32(m.fixed, 0) == CENTRAL_SIGNATURE
    && U16(m.fixed, 28) == |m.name| && U16(m.fixed, 30) == |m.extra| && U16(m.fixed, 32) == |m.comment|
  }

  function Header(m: Member): seq<Byte> {
    m.fixed + m.name + (m.extra + m.comment)
  }

  ghost predicate ValidMembers(ms: seq<Member>) {
    forall i :: 0 <= i < |ms| ==> ValidMember(ms[i])
  }

  function Directory(ms: seq<Member>): seq<Byte> {
    if ms == [] then [] else Header(ms[0]) + Directory(ms[1..])
  }

  /** What the reader sees of a member. */
  datatype Seen = Seen(size: nat, isDirectory: bool)

  ghost function SeenOf(m: Member): Seen
    requires ValidMember(m)
  {
    Seen(U32(m.fixed, 24), |m.name| > 0 && m.name[|m.name| - 1] == SLASH)
  }

  ghost function SeenAll(ms: seq<Member>): seq<Seen>
    requires ValidMembers(ms)
  {
    if ms == [] then [] else [SeenOf(ms[0])] + SeenAll(ms[1..])
  }

  /** The largest size among the files, 0 if there is none. */
  function Largest(es: seq<Seen>): nat {
    if es == [] then 0
    else
      var rest := Largest(es[..|es| - 1]);
      var e := es[|es| - 1];
      if !e.isDirectory && e.size > rest then e.size else rest
  }

  lemma {:induction false} LargestMeaning(es: seq<Seen>)
    ensures forall i :: 0 <= i < |es| && !es[i].isDirectory ==> es[i].size <= Largest(es)
    ensures Largest(es) > 0 ==> exists i :: 0 <= i < |es| && !es[i].isDirectory && es[i].size == Largest(es)
  {
    if es != [] {
      var h := es[..|es| - 1];
      LargestMeaning(h);
      assert forall i :: 0 <= i < |h| ==> h[i] == es[i];
      if Largest(h) == Largest(es) && Largest(es) > 0 {
        var i :| 0 <= i < |h| && !h[i].isDirectory && h[i].size == Largest(h);
        assert es[i] == h[i];
      }
    }
  }

  // ---------------------------------------------------------------- the reader

  /** The entry at `p`; the name is what `subarray` yields, cut off at the end of the buffer. A UTF-8
      name ends with a slash exactly if its last byte is one. */
  function EntryAt(buf: seq<Byte>, p: nat): Seen
    requires p + 46 <= |buf|
  {
    var to := p + 46 + U16(buf, p + 28);
    var end := if to <= |buf| then to else |buf|;
    Seen(U32(buf, p + 24), p + 46 < end && buf[end - 1] == SLASH)
  }

  function NextEntry(buf: seq<Byte>, p: nat): (q: nat)
    requires p + 46 <= |buf|
    ensures q >= p + 46
  {
    p + 46 + U16(buf, p + 28) + U16(buf, p + 30) + U16(buf, p + 32)
  }

  predicate AtEntry(buf: seq<Byte>, p: nat, eocd: nat)
    requires eocd <= |buf|
  {
    p + 46 <= eocd && U32(buf, p) == CENTRAL_SIGNATURE
  }

  /** The entries found from `p` on. */
  ghost function Walk(buf: seq<Byte>, p: nat, eocd: nat): seq<Seen>
    requires eocd <= |buf|
    decreases |buf| - p
  {
    if AtEntry(buf, p, eocd) then [EntryAt(buf, p)] + Walk(buf, NextEntry(buf, p), eocd) else []
  }

  /** Entry `e` lies at `p`, with its signature, size and name, and the next one at `q`, after its variable fields. */
  ghost predicate Row(buf: seq<Byte>, eocd: nat, p: nat, e: Seen, q: nat) {
    && SignedAt(buf, eocd, p)
    && var nameLen := Two(buf, p + 28);
       var name := buf[p + 46..if p + 46 + nameLen <= |buf| then p + 46 + nameLen else |buf|];
       && e == Seen(Two(buf, p + 24) + 65536 * Two(buf, p + 26),
                    name != [] && name[|name| - 1] as int == '/' as int)
       && q == p + 46 + nameLen + Two(buf, p + 30) + Two(buf, p + 32)
  }

  ghost function Two(buf: seq<Byte>, i: nat): nat {
    if i + 1 < |buf| then buf[i] as int + 256 * (buf[i + 1] as int) else 0
  }

  ghost predicate SignedAt(buf: seq<Byte>, eocd: nat, p: nat) {
    p + 46 <= eocd <= |buf| && buf[p..p + 4] == [0x50, 0x4b, 1, 2]
  }

  ghost predicate Rows(buf: seq<Byte>, eocd: nat, ps: seq<nat>, es: seq<Seen>) {
    |ps| == |es| + 1 && forall k :: 0 <= k < |es| ==> Row(buf, eocd, ps[k], es[k], ps[k + 1])
  }

  /** The walk follows the signatures from entry to entry and stops at the first place without one. */
  lemma {:induction false} WalkPositions(buf: seq<Byte>, p: nat, eocd: nat) returns (ps: seq<nat>)
    requires eocd <= |buf|
    ensures Rows(buf, eocd, ps, Walk(buf, p, eocd)) && ps[0] == p && !SignedAt(buf, eocd, ps[|ps| - 1])
    decreases |buf| - p
  {
    SignedIsEntry(buf, p, eocd);
    if !AtEntry(buf, p, eocd) {
      ps := [p];
    } else {
      ps := WalkPositions(buf, NextEntry(buf, p), eocd);
      FirstRow(buf, p, eocd);
      RowsPush(buf, eocd, p, EntryAt(buf, p), ps, Walk(buf, NextEntry(buf, p), eocd));
      ps := [p] + ps;
    }
  }

  lemma RowsPush(buf: seq<Byte>, eocd: nat, p: nat, e: Seen, ps: seq<nat>, es: seq<Seen>)
    requires Rows(buf, eocd, ps, es) && Row(buf, eocd, p, e, ps[0])
    ensures Rows(buf, eocd, [p] + ps, [e] + es)
  {
    var qs, fs := [p] + ps, [e] + es;
    forall k | 0 <= k < |fs| ensures Row(buf, eocd, qs[k], fs[k], qs[k + 1]) {
      if k > 0 { assert Row(buf, eocd, ps[k - 1], es[k - 1], ps[k - 1 + 1]); }
    }
  }

  lemma FirstRow(buf: seq<Byte>, p: nat, eocd: nat)
    requires eocd <= |buf| && AtEntry(buf, p, eocd)
    ensures Row(buf, eocd, p, EntryAt(buf, p), NextEntry(buf, p))
  {
    SignedIsEntry(buf, p, eocd);
  }

  lemma SignedIsEntry(buf: seq<Byte>, p: nat, eocd: nat)
    requires eocd <= |buf|
    ensures AtEntry(buf, p, eocd) <==> SignedAt(buf, eocd, p)
  {
    if p + 46 <= eocd {
      SignatureBytes(buf, p);
      assert buf[p..p + 4] == [buf[p], buf[p + 1], buf[p + 2], buf[p + 3]];
    }
  }

  lemma WalkStep(buf: seq<Byte>, p: nat, eocd: nat, e: Seen, q: nat)
    requires eocd <= |buf| && AtEntry(buf, p, eocd) && EntryAt(buf, p) == e && NextEntry(buf, p) == q
    ensures Walk(buf, p, eocd) == [e] + Walk(buf, q, eocd)
  {
  }

  lemma WalkOn(seen: seq<Seen>, buf: seq<Byte>, p: nat, eocd: nat)
    requires eocd <= |buf| && AtEntry(buf, p, eocd)
    ensures seen + [EntryAt(buf, p)] + Walk(buf, NextEntry(buf, p), eocd) == seen + Walk(buf, p, eocd)
    ensures var e := EntryAt(buf, p);
            Largest(seen + [e]) == if !e.isDirectory && e.size > Largest(seen) then e.size else Largest(seen)
  {
    var e := EntryAt(buf, p);
    WalkStep(buf, p, eocd, e, NextEntry(buf, p));
    assert seen + ([e] + Walk(buf, NextEntry(buf, p), eocd)) == seen + [e] + Walk(buf, NextEntry(buf, p), eocd);
    assert (seen + [e])[..|seen|] == seen;
  }

  /** The last end-record signature in reach, or -1. */
  method FindEnd(buf: seq<Byte>) returns (eocd: int)
    ensures -1 <= eocd && (eocd >= 0 ==> eocd + 22 <= |buf|)
    ensures eocd >= 0 ==> |buf| - 22 - 65535 <= eocd && U32(buf, eocd) == EOCD_SIGNATURE
    ensures forall i: nat :: eocd < i && i + 22 <= |buf| && |buf| - 22 - 65535 <= i ==> U32(buf, i) != EOCD_SIGNATURE
  {
    var lowest := if |buf| - 22 - 65535 > 0 then |buf| - 22 - 65535 else 0;
    var i := |buf| - 22;
    while i >= lowest
      invariant i <= |buf| - 22 && (i >= lowest - 1 || i == |buf| - 22)
      invariant forall k: nat :: i < k && k + 22 <= |buf| && lowest <= k ==> U32(buf, k) != EOCD_SIGNATURE
    {
      if U32(buf, i) == EOCD_SIGNATURE {
        return i;
      }
      i := i - 1;
    }
    return -1;
  }

  method LargestFrom(buf: seq<Byte>, start: nat, eocd: nat) returns (size: nat)
    requires eocd <= |buf|
    ensures size == Largest(Walk(buf, start, eocd))
  {
    size := 0;
    var p := start;
    ghost var seen: seq<Seen> := [];
    while AtEntry(buf, p, eocd)
      invariant seen + Walk(buf, p, eocd) == Walk(buf, start, eocd)
      invariant size == Largest(seen)
      decreases |buf| - p
    {
      WalkOn(seen, buf, p, eocd);
      var e := EntryAt(buf, p);
      seen := seen + [e];
      if !e.isDirectory && e.size > size {
        size := e.size;
      }
      p := NextEntry(buf, p);
    }
    assert seen + [] == seen;
  }

  /** The outcome with the directory at `p` of the buffer and the end record at `eocd`. */
  ghost function ReadFrom(buf: seq<Byte>, p: int, eocd: nat): Result<nat, string>
    requires eocd <= |buf|
  {
    if p < 0 then Err("zip central directory not within tail") else Verdict(Walk(buf, p, eocd))
  }

  ghost function Verdict(es: seq<Seen>): Result<nat, string> {
    if Largest(es) == 0 then Err("no file entry") else Ok(Largest(es))
  }

  /** `zipBinarySize` after the two requests: `total` is the archive's length, `buf` its tail. Any
      bytes at all are read within bounds, and the walk ends. */
  method ZipBinarySize(buf: seq<Byte>, total: nat) returns (r: Result<nat, string>)
    ensures r.Ok? ==> r.value > 0
    ensures forall eocd: nat :: IsEnd(buf, eocd) ==>
      r == ReadFrom(buf, U32(buf, eocd + 16) - (total - Tail(total)), eocd)
    ensures (forall eocd: nat :: !IsEnd(buf, eocd)) ==> r == Err("no zip EOCD")
  {
    var tail := if total < 65536 then total else 65536;
    var eocd := FindEnd(buf);
    if eocd < 0 {
      return Err("no zip EOCD");
    }
    assert IsEnd(buf, eocd);
    var p := U32(buf, eocd + 16) - (total - tail);
    if p < 0 {
      return Err("zip central directory not within tail");
    }
    var size := LargestFrom(buf, p, eocd);
    if size == 0 {
      return Err("no file entry");
    }
    return Ok(size);
  }

  function Tail(total: nat): nat {
    if total < 65536 then total else 65536
  }

  /** The end record the reader settles on: the last one in reach. */
  ghost predicate IsEnd(buf: seq<Byte>, eocd: nat) {
    && eocd + 22 <= |buf| && |buf| - 22 - 65535 <= eocd
    && U32(buf, eocd) == EOCD_SIGNATURE
    && forall i: nat :: eocd < i && i + 22 <= |buf| ==> U32(buf, i) != EOCD_SIGNATURE
  }

  // ---------------------------------------------------------------- writing and reading back

  /** The fixed bytes of a header can be written for any field values in range; the fields the
      reader does not look at are arbitrary. */
  function CentralHeader(before: seq<Byte>, uncompressed: nat, nameLen: nat, extraLen: nat, commentLen: nat,
                         after: seq<Byte>)
    : (f: seq<Byte>)
    requires |before| == 20 && |after| == 12 && uncompressed < 0x100000000
    requires nameLen < 0x10000 && extraLen < 0x10000 && commentLen < 0x10000
    ensures |f| == 46 && U32(f, 0) == CENTRAL_SIGNATURE && U32(f, 24) == uncompressed
    ensures U16(f, 28) == nameLen && U16(f, 30) == extraLen && U16(f, 32) == commentLen
  {
    var f := Le32(CENTRAL_SIGNATURE) + before + Le32(uncompressed) + Le16(nameLen) + Le16(extraLen) + Le16(commentLen)
      + after;
    assert f[0..4] == Le32(CENTRAL_SIGNATURE) && f[24..28] == Le32(uncompressed);
    assert f[28..30] == Le16(nameLen) && f[30..32] == Le16(extraLen) && f[32..34] == Le16(commentLen);
    Le32RoundTrip(CENTRAL_SIGNATURE);
    Le32RoundTrip(uncompressed);
    Le16RoundTrip(nameLen);
    Le16RoundTrip(extraLen);
    Le16RoundTrip(commentLen);
    f
  }

  /** There is a member for every name, extra field, comment and size in range. */
  lemma AnyMember(before: seq<Byte>, uncompressed: nat, name: seq<Byte>, extra: seq<Byte>, comment: seq<Byte>,
                  after: seq<Byte>)
    requires |before| == 20 && |after| == 12 && uncompressed < 0x100000000
    requires |name| < 0x10000 && |extra| < 0x10000 && |comment| < 0x10000
    ensures var m := Member(CentralHeader(before, uncompressed, |name|, |extra|, |comment|, after), name, extra,
      comment);
      ValidMember(m) && SeenOf(m).size == uncompressed
  {
  }

  /** The fixed bytes and the name lie where the reader looks for them. */
  lemma HeaderParts(buf: seq<Byte>, p: nat, m: Member)
    requires ValidMember(m) && HasAt(buf, p, Header(m))
    ensures HasAt(buf, p, m.fixed) && HasAt(buf, p + 46, m.name) && p + 46 + |m.name| <= |buf|
  {
    HasAtSplit(buf, p, m.fixed + m.name, m.extra + m.comment);
    HasAtSplit(buf, p, m.fixed, m.name);
  }

  lemma FixedRead(buf: seq<Byte>, p: nat, m: Member)
    requires ValidMember(m) && HasAt(buf, p, m.fixed)
    ensures U32(buf, p) == CENTRAL_SIGNATURE && U32(buf, p + 24) == U32(m.fixed, 24)
    ensures U16(buf, p + 28) == |m.name| && U16(buf, p + 30) == |m.extra| && U16(buf, p + 32) == |m.comment|
  {
    ReadInside(buf, p, m.fixed, 0);
    ReadInside(buf, p, m.fixed, 24);
    ReadInside(buf, p, m.fixed, 28);
    ReadInside(buf, p, m.fixed, 30);
    ReadInside(buf, p, m.fixed, 32);
  }

  /** A header that was written is read back. */
  lemma HeaderRead(buf: seq<Byte>, p: nat, m: Member)
    requires ValidMember(m) && HasAt(buf, p, Header(m))
    ensures U32(buf, p) == CENTRAL_SIGNATURE
    ensures EntryAt(buf, p) == SeenOf(m) && NextEntry(buf, p) == p + |Header(m)|
  {
    HeaderParts(buf, p, m);
    FixedRead(buf, p, m);
    if |m.name| > 0 { ByteInside(buf, p + 46, m.name, |m.name| - 1); }
  }

  lemma FirstRead(buf: seq<Byte>, p: nat, ms: seq<Member>, eocd: nat) returns (q: nat)
    requires ValidMembers(ms) && ms != [] && HasAt(buf, p, Directory(ms)) && p + |Directory(ms)| == eocd
    ensures AtEntry(buf, p, eocd) && EntryAt(buf, p) == SeenOf(ms[0]) && NextEntry(buf, p) == q
    ensures HasAt(buf, q, Directory(ms[1..])) && q + |Directory(ms[1..])| == eocd
  {
    q := p + |Header(ms[0])|;
    HasAtSplit(buf, p, Header(ms[0]), Directory(ms[1..]));
    HeaderRead(buf, p, ms[0]);
  }

  /** Walking a directory that was written yields its members. */
  lemma {:induction false} WalkReads(buf: seq<Byte>, p: nat, ms: seq<Member>, eocd: nat)
    requires ValidMembers(ms) && HasAt(buf, p, Directory(ms)) && p + |Directory(ms)| == eocd
    ensures Walk(buf, p, eocd) == SeenAll(ms)
    decreases |ms|
  {
    if ms != [] {
      var q := FirstRead(buf, p, ms, eocd);
      WalkStep(buf, p, eocd, SeenOf(ms[0]), q);
      WalkReads(buf, q, ms[1..], eocd);
    }
  }

  /** An archive: local entries up to `directoryAt`, a directory, an end record of 22 bytes and a
      comment. */
  datatype Archive = Archive(directoryAt: nat, members: seq<Member>, end: seq<Byte>, commentLen: nat)

  /** Where the end record starts. */
  function EndAt(a: Archive): nat {
    a.directoryAt + |Directory(a.members)|
  }

  /** `file` is laid out as `a` says. */
  ghost predicate IsArchive(file: seq<Byte>, a: Archive) {
    && ValidMembers(a.members)
    && HasAt(file, a.directoryAt, Directory(a.members))
    && HasAt(file, EndAt(a), a.end) && |file| == EndAt(a) + 22 + a.commentLen
    && |a.end| == 22 && U32(a.end, 0) == EOCD_SIGNATURE
    && U32(a.end, 16) == a.directoryAt && U16(a.end, 20) == a.commentLen
  }

  /** The comment holds no end-record signature where the reader would look. Without a comment there
      is no such place. */
  ghost predicate NoDecoy(file: seq<Byte>, a: Archive) {
    forall i: nat :: EndAt(a) < i && i + 22 <= |file| ==> U32(file, i) != EOCD_SIGNATURE
  }

  lemma TailHasAt(file: seq<Byte>, from: nat, p: nat, part: seq<Byte>)
    requires from <= p && HasAt(file, p, part)
    ensures HasAt(file[from..], p - from, part)
  {
    assert file[from..][p - from..p - from + |part|] == file[p..p + |part|];
  }

  // ---------------------------------------------------------------- any file at all

  /** The signatures are `PK` with 5 and 6, and `PK` with 1 and 2; a directory's name ends with a slash. */
  lemma SignatureBytes(buf: seq<Byte>, i: nat)
    requires i + 4 <= |buf|
    ensures U32(buf, i) == EOCD_SIGNATURE <==>
              buf[i] == 0x50 && buf[i + 1] == 0x4b && buf[i + 2] == 5 && buf[i + 3] == 6
    ensures U32(buf, i) == CENTRAL_SIGNATURE <==>
              buf[i] == 0x50 && buf[i + 1] == 0x4b && buf[i + 2] == 1 && buf[i + 3] == 2
    ensures SLASH as int == '/' as int
  {
  }

  /** Where the tail of a file starts. */
  function TailFrom(file: seq<Byte>): nat {
    |file| - Tail(|file|)
  }

  /** The last end-record signature in the tail of the file. */
  ghost predicate LastEnd(file: seq<Byte>, at: nat) {
    && TailFrom(file) <= at && at + 22 <= |file| && U32(file, at) == EOCD_SIGNATURE
    && forall i: nat :: at < i && i + 22 <= |file| ==> U32(file, i) != EOCD_SIGNATURE
  }

  /** What reading with the end record at `at` gives, be it the archive's own or not. */
  ghost function ReadAt(file: seq<Byte>, at: nat): Result<nat, string>
    requires TailFrom(file) <= at && at + 22 <= |file|
  {
    var from := TailFrom(file);
    ReadFrom(file[from..], U32(file, at + 16) - from, at - from)
  }

  lemma SameNumbers(file: seq<Byte>, from: nat, i: nat)
    requires from + i + 4 <= |file|
    ensures U32(file[from..], i) == U32(file, from + i)
  {
  }

  lemma EndInTail(file: seq<Byte>, at: nat)
    requires TailFrom(file) <= at
    ensures LastEnd(file, at) <==> IsEnd(file[TailFrom(file)..], at - TailFrom(file))
  {
    var from := TailFrom(file);
    var buf := file[from..];
    if at + 22 <= |file| { SameNumbers(file, from, at - from); }
    if LastEnd(file, at) {
      forall i: nat | at - from < i && i + 22 <= |buf|
        ensures U32(buf, i) != EOCD_SIGNATURE
      {
        SameNumbers(file, from, i);
      }
    }
    if IsEnd(buf, at - from) {
      forall i: nat | at < i && i + 22 <= |file|
        ensures U32(file, i) != EOCD_SIGNATURE
      {
        SameNumbers(file, from, i - from);
      }
    }
  }

  /** For any file, the outcome is that of the last end-record signature in its tail. */
  method ReadTail(file: seq<Byte>) returns (r: Result<nat, string>)
    ensures forall at: nat :: LastEnd(file, at) ==> r == ReadAt(file, at)
    ensures (forall at: nat :: !LastEnd(file, at)) ==> r == Err("no zip EOCD")
  {
    ghost var from := TailFrom(file);
    var buf := file[|file| - Tail(|file|)..];
    r := ZipBinarySize(buf, |file|);
    forall at: nat | LastEnd(file, at) ensures r == ReadAt(file, at) {
      EndInTail(file, at);
      SameNumbers(file, from, at - from + 16);
    }
    forall eocd: nat ensures IsEnd(buf, eocd) ==> LastEnd(file, eocd + from) {
      EndInTail(file, eocd + from);
    }
  }

  /** The outcome the reader should have. */
  ghost function Expected(file: seq<Byte>, a: Archive): Result<nat, string>
    requires IsArchive(file, a)
  {
    if a.directoryAt < TailFrom(file) then Err("zip central directory not within tail")
    else Verdict(SeenAll(a.members))
  }

  /** The reader uses the archive's own end record if and only if it is in the tail and the comment has no
      decoy. */
  lemma OwnEndIff(file: seq<Byte>, a: Archive)
    requires IsArchive(file, a)
    ensures LastEnd(file, EndAt(a)) <==> NoDecoy(file, a) && a.commentLen <= 65514
    ensures TailFrom(file) <= EndAt(a) <==> a.commentLen <= 65514
  {
    ReadInside(file, EndAt(a), a.end, 0);
  }

  lemma TailWalk(file: seq<Byte>, from: nat, p: nat, ms: seq<Member>, e: nat)
    requires ValidMembers(ms) && HasAt(file, p, Directory(ms)) && from <= p && e == p + |Directory(ms)|
    ensures e <= |file| && ReadFrom(file[from..], p - from, e - from) == Verdict(SeenAll(ms))
  {
    TailHasAt(file, from, p, Directory(ms));
    WalkVerdict(file[from..], p - from, ms, e - from);
  }

  lemma WalkVerdict(buf: seq<Byte>, p: nat, ms: seq<Member>, eocd: nat)
    requires ValidMembers(ms) && HasAt(buf, p, Directory(ms)) && p + |Directory(ms)| == eocd
    ensures ReadFrom(buf, p, eocd) == Verdict(SeenAll(ms))
  {
    WalkReads(buf, p, ms, eocd);
  }

  lemma OwnEndRead(file: seq<Byte>, a: Archive)
    requires IsArchive(file, a) && TailFrom(file) <= EndAt(a)
    ensures ReadAt(file, EndAt(a)) == Expected(file, a)
  {
    ReadInside(file, EndAt(a), a.end, 16);
    ReadAtIs(file, EndAt(a), a.directoryAt, a.members);
  }

  lemma ReadAtIs(file: seq<Byte>, at: nat, p: nat, ms: seq<Member>)
    requires ValidMembers(ms) && HasAt(file, p, Directory(ms)) && at == p + |Directory(ms)|
    requires TailFrom(file) <= at && at + 22 <= |file| && U32(file, at + 16) == p
    ensures ReadAt(file, at) == if p < TailFrom(file) then Err("zip central directory not within tail")
      else Verdict(SeenAll(ms))
  {
    var r := Verdict(SeenAll(ms));
    if TailFrom(file) <= p {
      TailWalk(file, TailFrom(file), p, ms, at);
      ReadAtFrom(file, at, p, r);
    }
  }

  lemma ReadAtFrom(file: seq<Byte>, at: nat, p: nat, r: Result<nat, string>)
    requires TailFrom(file) <= p <= at && at + 22 <= |file| && U32(file, at + 16) == p
    requires ReadFrom(file[TailFrom(file)..], p - TailFrom(file), at - TailFrom(file)) == r
    ensures ReadAt(file, at) == r
  {
  }

  /** Reading the tail of an archive. With its end record in the tail and no decoy, the size is that of the
      largest file, provided the directory is in the tail. Else the last decoy in the tail decides, or there
      is no end record. */
  method ReadBack(file: seq<Byte>, ghost a: Archive) returns (r: Result<nat, string>)
    requires IsArchive(file, a)
    ensures NoDecoy(file, a) && a.commentLen <= 65514 ==>
              if |file| - a.directoryAt > 65536 then r == Err("zip central directory not within tail")
              else if r.Ok? then r.value > 0 && LargestFile(a.members, r.value)
              else r == Err("no file entry") && forall m :: m in a.members && IsFile(m) ==> SizeOf(m) == 0
    ensures a.commentLen == 0 ==> NoDecoy(file, a)
    ensures forall at: nat :: LastEnd(file, at) ==> r == ReadAt(file, at)
    ensures (forall at: nat :: !LastEnd(file, at)) ==> r == Err("no zip EOCD")
  {
    r := ReadTail(file);
    OwnEndIff(file, a);
    if NoDecoy(file, a) && TailFrom(file) <= EndAt(a) {
      OwnEndRead(file, a);
      LargestSeen(a.members);
    }
  }

  /** A member that is no directory, and its uncompressed size. */
  ghost predicate IsFile(m: Member) {
    m.name == [] || m.name[|m.name| - 1] as int != '/' as int
  }

  ghost function SizeOf(m: Member): int {
    if |m.fixed| != 46 then 0
    else m.fixed[24] as int + 256 * (m.fixed[25] as int) + 65536 * (m.fixed[26] as int)
         + 16777216 * (m.fixed[27] as int)
  }

  ghost predicate LargestFile(ms: seq<Member>, n: nat) {
    && (forall m :: m in ms && IsFile(m) ==> SizeOf(m) <= n)
    && exists m :: m in ms && IsFile(m) && SizeOf(m) == n
  }

  lemma {:induction false} SeenAt(ms: seq<Member>, i: nat)
    requires ValidMembers(ms)
    ensures |SeenAll(ms)| == |ms|
    ensures i < |ms| ==> SeenAll(ms)[i] == Seen(SizeOf(ms[i]), !IsFile(ms[i]))
  {
    if ms != [] { SeenAt(ms[1..], if i == 0 then 0 else i - 1); }
  }

  lemma LargestSeen(ms: seq<Member>)
    requires ValidMembers(ms)
    ensures Largest(SeenAll(ms)) > 0 ==> LargestFile(ms, Largest(SeenAll(ms)))
    ensures Largest(SeenAll(ms)) == 0 ==> forall m :: m in ms && IsFile(m) ==> SizeOf(m) == 0
  {
    var es := SeenAll(ms);
    LargestMeaning(es);
    forall m | m in ms && IsFile(m) ensures 0 <= SizeOf(m) <= Largest(es) {
      var i :| 0 <= i < |ms| && ms[i] == m;
      SeenAt(ms, i);
    }
    if Largest(es) > 0 {
      var i :| 0 <= i < |es| && !es[i].isDirectory && es[i].size == Largest(es);
      SeenAt(ms, i);
      assert ms[i] in ms && IsFile(ms[i]) && SizeOf(ms[i]) == Largest(es);
    }
  }
}
