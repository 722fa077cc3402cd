/** The whole parameter of a post, from the bytes of the request to the record in the store. */
module PostRequests {
  import opened Words
  import opened Options
  import opened Balloons
  import opened Wire
  import opened Framing
  import opened Streams
  import opened RecordStore

  // ----- blobs, strings and lists of strings --------------------------------------------------

  function ReadBlob(c: Cursor): (Blob, Cursor) {
    var (n, c1) := ReadU(c, 2);
    if c1.ok && n <= |c1.rest| then (c1.rest[..n], Cursor(c1.rest[n..], true)) else ([], Cursor([], false))
  }

  function PutBlob(bytes: Blob, tail: seq<Byte>): seq<Byte> {
    PutU(|bytes|, 2, bytes + tail)
  }

  function Text(bytes: Blob): string {
    seq(|bytes|, i requires 0 <= i < |bytes| => bytes[i] as char)
  }

  /** A string that has one byte per character and a length that two bytes hold. */
  predicate GoodText(s: string) {
    |s| < Pow256(2) && forall i :: 0 <= i < |s| ==> s[i] as int < 256
  }

  function TextBytes(s: string): Blob
    requires GoodText(s)
  {
    seq(|s|, i requires 0 <= i < |s| => s[i] as int)
  }

  function ReadText(c: Cursor): (string, Cursor) {
    var (bytes, c') := ReadBlob(c);
    (Text(bytes), c')
  }

  function ReadTexts(c: Cursor, n: nat): (seq<string>, Cursor)
    decreases n
  {
    if n == 0 then ([], c)
    else
      var (s, c1) := ReadText(c);
      var (rest, c2) := ReadTexts(c1, n - 1);
      ([s] + rest, c2)
  }

  function ReadTextList(c: Cursor): (seq<string>, Cursor) {
    var (n, c') := ReadU(c, 4);
    ReadTexts(c', n)
  }

  predicate GoodTexts(ss: seq<string>) {
    forall s <- ss :: GoodText(s)
  }

  function PutTexts(ss: seq<string>, tail: seq<Byte>): seq<Byte>
    requires GoodTexts(ss)
  {
    if ss == [] then tail else PutBlob(TextBytes(ss[0]), PutTexts(ss[1..], tail))
  }

  lemma BlobReadsBack(bytes: Blob, tail: seq<Byte>)
    requires |bytes| < Pow256(2)
    ensures ReadBlob(Cursor(PutBlob(bytes, tail), true)) == (bytes, Cursor(tail, true))
  {
    UReadsBack(|bytes|, 2, bytes + tail);
    assert (bytes + tail)[..|bytes|] == bytes && (bytes + tail)[|bytes|..] == tail;
  }

  lemma TextReadsBack(s: string, tail: seq<Byte>)
    requires GoodText(s)
    ensures ReadText(Cursor(PutBlob(TextBytes(s), tail), true)) == (s, Cursor(tail, true))
  {
    BlobReadsBack(TextBytes(s), tail);
    assert Text(TextBytes(s)) == s;
  }

  lemma {:induction false} TextsReadBack(ss: seq<string>, tail: seq<Byte>)
    requires GoodTexts(ss)
    ensures ReadTexts(Cursor(PutTexts(ss, tail), true), |ss|) == (ss, Cursor(tail, true))
  {
    if ss == [] {
    } else {
      TextReadsBack(ss[0], PutTexts(ss[1..], tail));
      TextsReadBack(ss[1..], tail);
      assert [ss[0]] + ss[1..] == ss;
    }
  }

  // ----- the post parameter -------------------------------------------------------------------

  /** The fields before the ratings: an error in one of these refuses the request. */
  datatype Head = Head(size: UInt32, name: string, dataType: UInt16, meta: Blob, tags: seq<string>)

  function ReadHead(c: Cursor, headers: bool): (Head, Cursor) {
    WordSizes();
    var (size, c1) := ReadU(c, 4);
    var (name, c2) := ReadText(c1);
    var (dataType, c3) := ReadU(c2, 2);
    var (meta, c4) := ReadBlob(c3);
    var (tags, c5) := ReadTail(c4, headers);
    (Head(size, name, dataType, meta, tags), c5)
  }

  /** Skips both permissions, the flag, the period and the reference, and reads the tags. */
  function ReadTail(c: Cursor, headers: bool): (seq<string>, Cursor) {
    var c2 := SkipPermission(SkipPermission(c, headers), headers);
    var c5 := ReadU(ReadU(ReadU(c2, 4).1, 2).1, 4).1;
    ReadTextList(c5)
  }

  /** None is the answer "invalid argument". Errors are tested before the ratings and the slot are read. */
  function ReadPost(c: Cursor, headers: bool): Option<PostParam> {
    var (head, c1) := ReadHead(Open(c, headers).0, headers);
    if !c1.ok then None
    else
      WordSizes();
      var (initials, c2) := ReadInitParams(c1, headers);
      var slot := ReadPersistence(c2, headers).0;
      Some(PostParam(head.size, head.name, head.dataType, head.meta, head.tags, initials, slot))
  }

  /** A request as a client writes it; every structure in it may carry trailing fields of its own. */
  datatype Request = Request(
    head: Head, permission: PermissionParam, delPermission: PermissionParam,
    flag: UInt32, period: UInt16, reference: UInt32,
    ratings: seq<InitParam>, persistence: PersistenceParam, extra: seq<Byte>)

  predicate GoodPermission(p: PermissionParam, headers: bool) {
    && |p.pids| < Pow256(4) && GoodPids(p.pids) && |PermissionBody(p, p.extra)| < Pow256(4)
    && (headers || p.extra == [])
  }

  /** Lengths fit their fields, and without headers no trailing fields stand before the slot. */
  predicate GoodRequest(r: Request, headers: bool) {
    && GoodText(r.head.name) && |r.head.meta| < Pow256(2) && |r.head.tags| < Pow256(4) && GoodTexts(r.head.tags)
    && GoodPermission(r.permission, headers) && GoodPermission(r.delPermission, headers)
    && |r.ratings| < Pow256(4) && AllReadable(r.ratings, headers) && |r.persistence.extra| + 3 < Pow256(4)
  }

  function PutTail(r: Request, headers: bool, tail: seq<Byte>): seq<Byte>
    requires GoodRequest(r, headers)
  {
    PutPermission(r.permission, headers, PutPermission(r.delPermission, headers,
      PutU(r.flag, 4, PutU(r.period, 2, PutU(r.reference, 4,
        PutU(|r.head.tags|, 4, PutTexts(r.head.tags, tail)))))))
  }

  function PutHead(r: Request, headers: bool, tail: seq<Byte>): seq<Byte>
    requires GoodRequest(r, headers)
  {
    PutU(r.head.size, 4, PutBlob(TextBytes(r.head.name), PutU(r.head.dataType, 2,
      PutBlob(r.head.meta, PutTail(r, headers, tail)))))
  }

  function RequestBody(r: Request, headers: bool): seq<Byte>
    requires GoodRequest(r, headers)
  {
    PutHead(r, headers, PutInitParams(r.ratings, headers, PutPersistence(r.persistence, headers, r.extra)))
  }

  function PutRequest(r: Request, headers: bool): seq<Byte>
    requires GoodRequest(r, headers)
  {
    Wrap(RequestBody(r, headers), headers, [])
  }

  lemma TailReadsBack(r: Request, headers: bool, tail: seq<Byte>)
    requires GoodRequest(r, headers)
    ensures ReadTail(Cursor(PutTail(r, headers, tail), true), headers) == (r.head.tags, Cursor(tail, true))
  {
    WordSizes();
    var t6 := PutTexts(r.head.tags, tail);
    var t5 := PutU(|r.head.tags|, 4, t6);
    var t4 := PutU(r.reference, 4, t5);
    var t3 := PutU(r.period, 2, t4);
    var t2 := PutU(r.flag, 4, t3);
    PermissionRoundTrip(r.permission, headers, PutPermission(r.delPermission, headers, t2));
    PermissionRoundTrip(r.delPermission, headers, t2);
    UReadsBack(r.flag, 4, t3);
    UReadsBack(r.period, 2, t4);
    UReadsBack(r.reference, 4, t5);
    UReadsBack(|r.head.tags|, 4, t6);
    TextsReadBack(r.head.tags, tail);
  }

  lemma HeadReadsBack(r: Request, headers: bool, tail: seq<Byte>)
    requires GoodRequest(r, headers)
    ensures ReadHead(Cursor(PutHead(r, headers, tail), true), headers) == (r.head, Cursor(tail, true))
  {
    WordSizes();
    var t4 := PutTail(r, headers, tail);
    var t3 := PutBlob(r.head.meta, t4);
    var t2 := PutU(r.head.dataType, 2, t3);
    UReadsBack(r.head.size, 4, PutBlob(TextBytes(r.head.name), t2));
    TextReadsBack(r.head.name, t2);
    UReadsBack(r.head.dataType, 2, t3);
    BlobReadsBack(r.head.meta, t4);
    TailReadsBack(r, headers, tail);
  }

  /** What the handler is to make of a request: the last initial value of each slot, 0xFFFF as no slot. */
  function Meant(r: Request): PostParam {
    var slot := if r.persistence.slot == NOT_PERSISTENT then None else Some(r.persistence.slot);
    PostParam(r.head.size, r.head.name, r.head.dataType, r.head.meta, r.head.tags, Collect(r.ratings, map[]), slot)
  }

  /** Every field of a whole request arrives, whatever trailing fields its nested structures carry. */
  lemma RequestRoundTrip(r: Request, headers: bool)
    requires GoodRequest(r, headers) && |RequestBody(r, headers)| < Pow256(4)
    ensures ReadPost(Cursor(PutRequest(r, headers), true), headers) == Some(Meant(r))
  {
    var persistence := PutPersistence(r.persistence, headers, r.extra);
    var ratings := PutInitParams(r.ratings, headers, persistence);
    OpenWrapped(RequestBody(r, headers), headers, []);
    assert RequestBody(r, headers) + [] == RequestBody(r, headers);
    HeadReadsBack(r, headers, ratings);
    InitParamsRoundTrip(r.ratings, headers, persistence);
    PersistenceRoundTrip(r.persistence, headers, r.extra);
  }

  /**
   * The record that a post of this request leaves in the store, field by field: `complete` is as the
   * handler says, and each slot has the last initial value written for it, and no rating yet.
   */
  lemma StoredAsWritten(r: Request, headers: bool, p: PostParam, pid: Pid, now: nat, wall: int, id: Id, complete: bool, b: Balloon)
    requires GoodRequest(r, headers) && |RequestBody(r, headers)| < Pow256(4)
    requires ReadPost(Cursor(PutRequest(r, headers), true), headers) == Some(p)
    requires b == NewBalloon(id, PostingOf(pid, p, now), wall, complete, p.initials)
    ensures b.id == id && b.wall == wall && b.complete == complete
    ensures b.buffers == map[] && b.ratingSum == 0 && b.ratingN == 0
    ensures b.post.owner == pid && b.post.createdAt == now && b.post.updatedAt == now
    ensures b.post.size == r.head.size && b.post.name == r.head.name && b.post.dataType == r.head.dataType
    ensures b.post.meta == r.head.meta && b.post.tags == r.head.tags
    ensures b.post.slot == if r.persistence.slot == 0xFFFF then None else Some(r.persistence.slot)
    ensures forall i :: 0 <= i < |r.ratings| && (forall j :: i < j < |r.ratings| ==> r.ratings[j].slot != r.ratings[i].slot) ==>
              var w := r.ratings[i];
              && w.slot in b.ratings && b.ratings[w.slot].count == 0
              && b.ratings[w.slot].total == w.initial && b.ratings[w.slot].initial == w.initial
    ensures forall s <- b.ratings :: exists i :: 0 <= i < |r.ratings| && r.ratings[i].slot == s
  {
    RequestRoundTrip(r, headers);
    forall i | 0 <= i < |r.ratings| && (forall j :: i < j < |r.ratings| ==> r.ratings[j].slot != r.ratings[i].slot)
      ensures r.ratings[i].slot in p.initials && p.initials[r.ratings[i].slot] == r.ratings[i].initial
    {
      LastInitWins(r.ratings, map[], i);
    }
    forall s | s in b.ratings ensures exists i :: 0 <= i < |r.ratings| && r.ratings[i].slot == s {
      CollectsNamed(r.ratings, map[], s);
    }
  }

  /** A request that ends behind its tags is accepted: no initial ratings and no slot. */
  lemma EndsBehindTags(r: Request, headers: bool)
    requires GoodRequest(r, headers) && |PutHead(r, headers, [])| < Pow256(4)
    ensures ReadPost(Cursor(Wrap(PutHead(r, headers, []), headers, []), true), headers) ==
              Some(PostParam(r.head.size, r.head.name, r.head.dataType, r.head.meta, r.head.tags, map[], None))
  {
    var body := PutHead(r, headers, []);
    OpenWrapped(body, headers, []);
    assert body + [] == body;
    HeadReadsBack(r, headers, []);
    assert ReadInitParams(Cursor([], true), headers) == (map[], Cursor([], false));
  }

  /** A cursor that has failed stays failed through all the fields before the ratings. */
  lemma FailureSticks(headers: bool)
    ensures ReadHead(Cursor([], false), headers).1 == Cursor([], false)
  {
    var failed := Cursor([], false);
    assert ReadU(failed, 4) == (0, failed);
    assert SkipPids(failed, 0) == failed;
    assert SkipPermission(failed, headers) == failed;
    assert ReadTexts(failed, 0) == ([], failed);
  }

  lemma OpenCutShort(body: seq<Byte>, k: nat)
    requires |body| < Pow256(4) && k < |Wrap(body, true, [])|
    ensures Open(Cursor(Wrap(body, true, [])[..k], true), true).0 == Cursor([], false)
  {
    var all, rest := Wrap(body, true, []), PutU(|body|, 4, body + []);
    assert all == LE(0, 1) + rest;
    if k >= 5 {
      assert all[..k][1..] == rest[..k - 1];
      assert rest[..k - 1][..4] == LE(|body|, 4);
      FromLEOfLE(|body|, 4);
    }
  }

  /** With headers, a request cut short anywhere is refused, even inside a part that is not needed. */
  lemma CutShortRefused(r: Request, k: nat)
    requires GoodRequest(r, true) && |RequestBody(r, true)| < Pow256(4) && k < |PutRequest(r, true)|
    ensures ReadPost(Cursor(PutRequest(r, true)[..k], true), true) == None
  {
    OpenCutShort(RequestBody(r, true), k);
    FailureSticks(true);
  }

  // ----- requests without headers that are cut short ------------------------------------------

  /** The same cursor with more bytes behind it. */
  function Longer(c: Cursor, more: seq<Byte>): Cursor {
    Cursor(c.rest + more, c.ok)
  }

  lemma ULonger(c: Cursor, n: nat, more: seq<Byte>)
    requires ReadU(c, n).1.ok
    ensures c.ok && ReadU(Longer(c, more), n) == (ReadU(c, n).0, Longer(ReadU(c, n).1, more))
  {
    assert (c.rest + more)[..n] == c.rest[..n] && (c.rest + more)[n..] == c.rest[n..] + more;
  }

  lemma BlobLonger(c: Cursor, more: seq<Byte>)
    requires ReadBlob(c).1.ok
    ensures c.ok && ReadBlob(Longer(c, more)) == (ReadBlob(c).0, Longer(ReadBlob(c).1, more))
  {
    var (n, c1) := ReadU(c, 2);
    ULonger(c, 2, more);
    assert (c1.rest + more)[..n] == c1.rest[..n] && (c1.rest + more)[n..] == c1.rest[n..] + more;
  }

  lemma {:induction false} TextsLonger(c: Cursor, n: nat, more: seq<Byte>)
    requires ReadTexts(c, n).1.ok
    ensures c.ok && ReadTexts(Longer(c, more), n) == (ReadTexts(c, n).0, Longer(ReadTexts(c, n).1, more))
    decreases n
  {
    if n == 0 {
    } else {
      TextsLonger(ReadText(c).1, n - 1, more);
      BlobLonger(c, more);
    }
  }

  lemma {:induction false} PidsLonger(c: Cursor, n: nat, more: seq<Byte>)
    requires SkipPids(c, n).ok
    ensures c.ok && SkipPids(Longer(c, more), n) == Longer(SkipPids(c, n), more)
    decreases n
  {
    if n == 0 {
    } else {
      PidsLonger(ReadU(c, 8).1, n - 1, more);
      ULonger(c, 8, more);
    }
  }

  lemma PermissionLonger(c: Cursor, more: seq<Byte>)
    requires SkipPermission(c, false).ok
    ensures c.ok && SkipPermission(Longer(c, more), false) == Longer(SkipPermission(c, false), more)
  {
    var c1 := ReadU(c, 1).1;
    var (n, c2) := ReadU(c1, 4);
    PidsLonger(c2, n, more);
    ULonger(c1, 4, more);
    ULonger(c, 1, more);
  }

  lemma TailLonger(c: Cursor, more: seq<Byte>)
    requires ReadTail(c, false).1.ok
    ensures c.ok && ReadTail(Longer(c, more), false) == (ReadTail(c, false).0, Longer(ReadTail(c, false).1, more))
  {
    var c1 := SkipPermission(c, false);
    var c2 := SkipPermission(c1, false);
    var c3 := ReadU(c2, 4).1;
    var c4 := ReadU(c3, 2).1;
    var c5 := ReadU(c4, 4).1;
    var (n, c6) := ReadU(c5, 4);
    TextsLonger(c6, n, more);
    ULonger(c5, 4, more);
    ULonger(c4, 4, more);
    ULonger(c3, 2, more);
    ULonger(c2, 4, more);
    PermissionLonger(c1, more);
    PermissionLonger(c, more);
  }

  /** Fields that were read without error are read the same with more bytes behind them. */
  lemma HeadLonger(c: Cursor, more: seq<Byte>)
    requires ReadHead(c, false).1.ok
    ensures ReadHead(Longer(c, more), false) == (ReadHead(c, false).0, Longer(ReadHead(c, false).1, more))
  {
    var c1 := ReadU(c, 4).1;
    var c2 := ReadText(c1).1;
    var c3 := ReadU(c2, 2).1;
    var c4 := ReadBlob(c3).1;
    TailLonger(c4, more);
    BlobLonger(c3, more);
    ULonger(c2, 2, more);
    BlobLonger(c1, more);
    ULonger(c, 4, more);
  }

  lemma PutBlobAppends(bytes: Blob, a: seq<Byte>, b: seq<Byte>)
    ensures PutBlob(bytes, a) + b == PutBlob(bytes, a + b)
  {
    PutUAppends(|bytes|, 2, bytes + a, b);
    assert bytes + a + b == bytes + (a + b);
  }

  lemma {:induction false} TextsAppend(ss: seq<string>, a: seq<Byte>, b: seq<Byte>)
    requires GoodTexts(ss)
    ensures PutTexts(ss, a) + b == PutTexts(ss, a + b)
  {
    if ss == [] {
    } else {
      TextsAppend(ss[1..], a, b);
      PutBlobAppends(TextBytes(ss[0]), PutTexts(ss[1..], a), b);
    }
  }

  lemma PermissionAppends(p: PermissionParam, a: seq<Byte>, b: seq<Byte>)
    ensures PutPermission(p, false, a) + b == PutPermission(p, false, a + b)
  {
    var body := PermissionBody(p, p.extra);
    assert body + a + b == body + (a + b);
  }

  lemma TailAppends(r: Request, a: seq<Byte>, b: seq<Byte>)
    requires GoodRequest(r, false)
    ensures PutTail(r, false, a) + b == PutTail(r, false, a + b)
  {
    var t6 := PutTexts(r.head.tags, a);
    var t5 := PutU(|r.head.tags|, 4, t6);
    var t4 := PutU(r.reference, 4, t5);
    var t3 := PutU(r.period, 2, t4);
    var t2 := PutU(r.flag, 4, t3);
    TextsAppend(r.head.tags, a, b);
    PutUAppends(|r.head.tags|, 4, t6, b);
    PutUAppends(r.reference, 4, t5, b);
    PutUAppends(r.period, 2, t4, b);
    PutUAppends(r.flag, 4, t3, b);
    PermissionAppends(r.delPermission, t2, b);
    PermissionAppends(r.permission, PutPermission(r.delPermission, false, t2), b);
  }

  lemma HeadAppends(r: Request, a: seq<Byte>, b: seq<Byte>)
    requires GoodRequest(r, false)
    ensures PutHead(r, false, a) + b == PutHead(r, false, a + b)
  {
    var t4 := PutTail(r, false, a);
    var t3 := PutBlob(r.head.meta, t4);
    var t2 := PutU(r.head.dataType, 2, t3);
    TailAppends(r, a, b);
    PutBlobAppends(r.head.meta, t4, b);
    PutUAppends(r.head.dataType, 2, t3, b);
    PutBlobAppends(TextBytes(r.head.name), t2, b);
    PutUAppends(r.head.size, 4, PutBlob(TextBytes(r.head.name), t2), b);
  }

  /** If nothing is left of the longer bytes, the shorter ones were not enough. */
  lemma ShorterFails(c: Cursor, more: seq<Byte>)
    requires more != [] && ReadHead(Longer(c, more), false).1.rest == []
    ensures !ReadHead(c, false).1.ok
  {
    if ReadHead(c, false).1.ok {
      HeadLonger(c, more);
    }
  }

  lemma PostNeedsHead(c: Cursor)
    ensures ReadPost(c, false) == None <==> !ReadHead(c, false).1.ok
  {
  }

  /** Without headers, a request cut short is refused if and only if it ends before the end of its tags. */
  lemma CutShortExactlyWhen(r: Request, k: nat)
    requires GoodRequest(r, false) && k <= |PutRequest(r, false)|
    ensures ReadPost(Cursor(PutRequest(r, false)[..k], true), false) == None <==> k < |PutHead(r, false, [])|
  {
    var head := PutHead(r, false, []);
    var rest := PutInitParams(r.ratings, false, PutPersistence(r.persistence, false, r.extra));
    HeadAppends(r, [], rest);
    assert [] + rest == rest;
    assert PutRequest(r, false) == head + rest;
    HeadReadsBack(r, false, []);
    CutBehindHead(head, rest, k);
    PostNeedsHead(Cursor((head + rest)[..k], true));
  }

  lemma CutBehindHead(head: seq<Byte>, rest: seq<Byte>, k: nat)
    requires ReadHead(Cursor(head, true), false).1 == Cursor([], true) && k <= |head + rest|
    ensures !ReadHead(Cursor((head + rest)[..k], true), false).1.ok <==> k < |head|
  {
    if k < |head| {
      assert (head + rest)[..k] == head[..k];
      assert Longer(Cursor(head[..k], true), head[k..]) == Cursor(head, true);
      ShorterFails(Cursor(head[..k], true), head[k..]);
    } else {
      assert (head + rest)[..k] == head + rest[..k - |head|];
      HeadLonger(Cursor(head, true), rest[..k - |head|]);
    }
  }

  // ----- the reader and the handler as they run -----------------------------------------------

  method ReadBlobFrom(in_: StreamIn) returns (bytes: Blob)
    modifies in_
    ensures (bytes, in_.Cur()) == ReadBlob(old(in_.Cur()))
  {
    var n := in_.U(2);
    if in_.ok && n <= |in_.rest| {
      bytes := in_.rest[..n];
      in_.rest := in_.rest[n..];
    } else {
      bytes, in_.rest, in_.ok := [], [], false;
    }
  }

  method ReadTags(in_: StreamIn) returns (tags: seq<string>)
    modifies in_
    ensures (tags, in_.Cur()) == ReadTextList(old(in_.Cur()))
  {
    tags := [];
    var n := in_.U(4);
    ghost var list := in_.Cur();
    assert [] + ReadTexts(list, n).0 == ReadTexts(list, n).0;
    var i := 0;
    while i < n
      invariant 0 <= i <= n
      invariant var (rest, end) := ReadTexts(in_.Cur(), n - i); (tags + rest, end) == ReadTexts(list, n)
    {
      ghost var rest := ReadTexts(in_.Cur(), n - i).0;
      var bytes := ReadBlobFrom(in_);
      assert tags + rest == tags + [Text(bytes)] + rest[1..];
      tags := tags + [Text(bytes)];
      i := i + 1;
    }
    assert tags + [] == tags;
  }

  method ReadHeadFields(in_: StreamIn) returns (head: Head)
    modifies in_
    ensures (head, in_.Cur()) == ReadHead(old(in_.Cur()), in_.headers)
  {
    WordSizes();
    var size := in_.U(4);
    var name := ReadBlobFrom(in_);
    var dataType := in_.U(2);
    var meta := ReadBlobFrom(in_);
    ReadPermission(in_);
    ReadPermission(in_);
    var _ := in_.U(4);  // flag
    var _ := in_.U(2);  // period
    var _ := in_.U(4);  // reference
    var tags := ReadTags(in_);
    head := Head(size, Text(name), dataType, meta, tags);
  }

  method ReadPostParam(body: seq<Byte>, headers: bool) returns (p: Option<PostParam>)
    ensures p == ReadPost(Cursor(body, true), headers)
  {
    var req := new StreamIn(body, true, headers);
    var in_ := ReadStructHeader(req);
    var head := ReadHeadFields(in_);
    if !in_.ok {
      return None;
    }
    var initials := ReadRatingInitParams(in_);
    var slot := ReadPersistenceSlot(in_);
    p := Some(PostParam(head.size, head.name, head.dataType, head.meta, head.tags, initials, slot));
  }

  /** The two posts, from the bytes of the request: a refused one changes nothing. */
  method HandlePrepare(ds: DataStore, body: seq<Byte>, headers: bool, pid: Pid, now: nat, wall: int) returns (answer: Option<Id>)
    requires ds.Valid()
    modifies ds`records, ds`nextId, ds`dirty
    ensures ds.Valid()
    ensures match ReadPost(Cursor(body, true), headers)
            case None => answer == None && unchanged(ds)
            case Some(p) =>
              && answer == Some(old(ds.nextId)) && ds.nextId == old(ds.nextId) + 1 && ds.dirty
              && var b := NewBalloon(old(ds.nextId), PostingOf(pid, p, now), wall, false, p.initials);
                 ds.View() == old(ds.View())[b.id := b] && !ds.View()[old(ds.nextId)].complete
  {
    var p := ReadPostParam(body, headers);
    if p.None? {
      return None;
    }
    assert ds.View() == old(ds.View());
    var id := ds.PreparePostObject(pid, p.value, now, wall);
    answer := Some(id);
  }

  method HandleMetaBinary(ds: DataStore, body: seq<Byte>, headers: bool, pid: Pid, now: nat, wall: int)
      returns (answer: Option<Id>, ghost victim: Option<Id>)
    requires ds.Valid()
    modifies ds`records, ds`nextId, ds`dirty
    ensures ds.Valid()
    ensures match ReadPost(Cursor(body, true), headers)
            case None => answer == None && unchanged(ds)
            case Some(p) =>
              && answer == Some(old(ds.nextId)) && ds.nextId == old(ds.nextId) + 1 && ds.dirty
              && var b := NewBalloon(old(ds.nextId), PostingOf(pid, p, now), wall, true, p.initials);
                 && PostReplaces(old(ds.View()), ds.View(), b, victim)
                 && old(ds.nextId) in ds.View() && ds.View()[old(ds.nextId)] == b && b.complete
  {
    victim := None;
    var p := ReadPostParam(body, headers);
    if p.None? {
      return None, None;
    }
    assert ds.View() == old(ds.View());
    var id, replaced;
    id, replaced, victim := ds.PostMetaBinary(pid, p.value, now, wall);
    PostedStays(old(ds.View()), ds.View(), NewBalloon(id, PostingOf(pid, p.value, now), wall, true, p.value.initials), victim);
    answer := Some(id);
  }
}
