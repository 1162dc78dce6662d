/**
 The audit log's reader (internal/audit/stream_store.go): newest-first pages over a
 stream whose messages have consecutive sequence numbers, and what stepping through
 the pages returns while the stream moves on.
 */
module StreamStore {
  import opened Base

  const INT_LIMIT: int := 0x8000_0000_0000_0000

  /** A JetStream stream: messages[i] has sequence number first + i. */
  datatype Stream = Stream(first: nat, messages: seq<string>)

  /** Sequence numbers fit in uint64 and counts in int. */
  predicate Fits(s: Stream) {
    s.first + |s.messages| < UINT64_MODULUS && |s.messages| < INT_LIMIT
  }

  /** Newest first. */
  function Reversed<T>(s: seq<T>): seq<T> {
    seq(|s|, i requires 0 <= i < |s| => s[|s| - 1 - i])
  }

  /** The entries of the messages that decode; the others are skipped. */
  function Decoded<E>(messages: seq<string>, decode: string -> Option<E>): seq<E> {
    if messages == [] then []
    else
      var last := decode(messages[|messages| - 1]);
      Decoded(messages[..|messages| - 1], decode) + if last.Some? then [last.value] else []
  }

  function Min(a: int, b: int): int {
    if a <= b then a else b
  }

  /** The nearest position in a list of this length. */
  function Clamp(i: int, length: nat): nat {
    if i < 0 then 0 else Min(i, length)
  }

  /** What a page is meant to be. */
  function Page<E>(s: Stream, limit: nat, offset: int, decode: string -> Option<E>): seq<E> {
    var total := |s.messages|;
    if offset >= total then []
    else Decoded(Reversed(s.messages)[Clamp(offset, total)..Clamp(offset + limit, total)], decode)
  }

  /** The messages that there are of the count from startSeq on. */
  function Slice(s: Stream, startSeq: nat, count: nat): seq<string>
    requires s.first <= startSeq
  {
    var start := startSeq - s.first;
    s.messages[Clamp(start, |s.messages|)..Clamp(start + count, |s.messages|)]
  }

  /** The numbers that a page which reads the log computes with fit their types. */
  predicate InRange(s: Stream, limit: int, offset: int) {
    && 0 < limit && limit + |s.messages| < INT_LIMIT
    && s.first + |s.messages| - offset < UINT64_MODULUS
  }

  // -------------------------------------------------------------- the reader

  class Reader<E> {
    const decode: string -> Option<E>
    var stream: Stream

    constructor (stream: Stream, decode: string -> Option<E>)
      ensures this.stream == stream && this.decode == decode
    {
      this.stream := stream;
      this.decode := decode;
    }

    /** One page and the total count. A negative offset counts as zero for the page's
        beginning, not for its end. */
    method List(limit: int, offset: int) returns (entries: seq<E>, total: int)
      requires Fits(stream)
      requires stream.messages != [] && offset < |stream.messages| ==> InRange(stream, limit, offset)
      ensures total == |stream.messages|
      ensures total == 0 || offset >= total ==> entries == []
      ensures 0 < total && offset < total ==> entries == Page(stream, limit, offset, decode)
    {
      total := |stream.messages|;
      if total == 0 || offset >= total {
        return [], total;
      }

      var count := limit;
      if offset + count > total {
        count := total - offset;
      }
      var startSeq := FirstOfPage(stream.first, total, offset, count);
      entries := FetchNewestFirst(startSeq, count);
      PageFromBatch(stream, limit, offset, startSeq, count, decode);
    }

    /** Every entry. */
    method ListAll() returns (entries: seq<E>)
      ensures entries == Decoded(Reversed(stream.messages), decode)
    {
      var total := |stream.messages|;
      if total == 0 {
        return [];
      }
      entries := FetchNewestFirst(stream.first, total);
      assert stream.messages[0..total] == stream.messages;
      ReversedDecoded(stream.messages, decode);
    }

    /** The tail both readers share: fetch, decode, reverse in place. */
    method FetchNewestFirst(startSeq: nat, count: nat) returns (entries: seq<E>)
      requires stream.first <= startSeq
      ensures entries == Reversed(Decoded(Slice(stream, startSeq, count), decode))
    {
      var batch := Fetch(startSeq, count);
      var fetched := DecodeBatch(batch);
      ReverseInPlace(fetched);
      entries := fetched[..];
    }

    /** The next count messages from a sequence number on, as an ordered consumer delivers
        them: fewer when the log ends before. */
    method Fetch(startSeq: nat, count: nat) returns (batch: seq<string>)
      requires stream.first <= startSeq
      ensures batch == Slice(stream, startSeq, count)
    {
      var start := startSeq - stream.first;
      batch := stream.messages[Clamp(start, |stream.messages|)..Clamp(start + count, |stream.messages|)];
    }

    /** Appends what decodes, in the order of the batch. */
    method DecodeBatch(batch: seq<string>) returns (entries: array<E>)
      ensures fresh(entries) && entries[..] == Decoded(batch, decode)
    {
      var found := [];
      for i := 0 to |batch|
        invariant found == Decoded(batch[..i], decode)
      {
        assert batch[..i + 1][..i] == batch[..i];
        var entry := decode(batch[i]);
        if entry.Some? {
          found := found + [entry.value];
        }
      }
      assert batch[..|batch|] == batch;
      entries := new E[|found|](i requires 0 <= i < |found| => found[i]);
    }
  }

  /** The sequence number a page starts at, in uint64 arithmetic. */
  function StartSeq(first: nat, msgs: nat, offset: int, count: nat): nat {
    var newestSeq := (first + msgs - 1) % UINT64_MODULUS;
    (newestSeq - offset % UINT64_MODULUS - count + 1) % UINT64_MODULUS
  }

  /** Where a page starts; in range, so the subtractions did not wrap. */
  method FirstOfPage(first: nat, msgs: nat, offset: int, count: nat) returns (startSeq: nat)
    requires 0 < msgs && first + msgs < UINT64_MODULUS && 0 < count && offset + count <= msgs
    requires first + msgs - offset < UINT64_MODULUS
    ensures startSeq == first + msgs - offset - count && first <= startSeq
  {
    startSeq := StartSeq(first, msgs, offset, count);
    StartSeqInRange(first, msgs, offset, count);
  }

  /** Swaps from both ends towards the middle. */
  method ReverseInPlace<T>(a: array<T>)
    modifies a
    ensures a[..] == Reversed(old(a[..]))
  {
    var i, j := 0, a.Length - 1;
    while i < j
      invariant 0 <= i && i + j == a.Length - 1 && i <= j + 1
      invariant forall k :: 0 <= k < i || j < k < a.Length ==> a[k] == old(a[a.Length - 1 - k])
      invariant forall k :: i <= k <= j ==> a[k] == old(a[k])
    {
      a[i], a[j] := a[j], a[i];
      i, j := i + 1, j - 1;
    }
  }

  // -------------------------------------------------------- one page, exactly

  /** The subtractions come out right and never start before the first message; with no
      negative offset the page starts within the stream. */
  lemma StartSeqInRange(first: nat, msgs: nat, offset: int, count: nat)
    requires 0 < msgs && first + msgs < UINT64_MODULUS && 0 < count && offset + count <= msgs
    requires first + msgs - offset < UINT64_MODULUS
    ensures StartSeq(first, msgs, offset, count) == first + msgs - offset - count
    ensures first <= StartSeq(first, msgs, offset, count)
    ensures 0 <= offset ==> StartSeq(first, msgs, offset, count) < first + msgs
  {
    var exact := first + msgs - offset - count;
    var k := offset / UINT64_MODULUS;
    assert offset == k * UINT64_MODULUS + offset % UINT64_MODULUS;
    ModuloShift(exact, k);
  }

  lemma ModuloShift(x: nat, k: int)
    requires x < UINT64_MODULUS
    ensures (x + k * UINT64_MODULUS) % UINT64_MODULUS == x
  {
    assert (x + k * UINT64_MODULUS) / UINT64_MODULUS == k;
  }

  lemma {:induction false} DecodedAppend<E>(a: seq<string>, b: seq<string>, decode: string -> Option<E>)
    ensures Decoded(a + b, decode) == Decoded(a, decode) + Decoded(b, decode)
    decreases |b|
  {
    if b == [] {
      assert a + b == a;
    } else {
      DecodedAppend(a, b[..|b| - 1], decode);
      assert (a + b)[..|a + b| - 1] == a + b[..|b| - 1];
    }
  }

  /** One message is one entry, or none if it does not decode. */
  lemma DecodedOne<E>(message: string, decode: string -> Option<E>)
    ensures Decoded([message], decode) == if decode(message).Some? then [decode(message).value] else []
  {
    assert [message][..0] == [];
  }

  /** Reversing the entries is reversing the messages. */
  lemma {:induction false} ReversedDecoded<E>(messages: seq<string>, decode: string -> Option<E>)
    ensures Reversed(Decoded(messages, decode)) == Decoded(Reversed(messages), decode)
    decreases |messages|
  {
    if messages == [] {
    } else {
      var init, last := messages[..|messages| - 1], messages[|messages| - 1];
      ReversedDecoded(init, decode);
      DecodedAppend([last], Reversed(init), decode);
      assert Reversed(messages) == [last] + Reversed(init);
      assert [last][..0] == [];
      assert Decoded([last], decode) == if decode(last).Some? then [decode(last).value] else [];
    }
  }

  /** The messages fetched for a page, reversed, are the page. */
  lemma PageFromBatch<E>(s: Stream, limit: nat, offset: int, startSeq: nat, count: nat, decode: string -> Option<E>)
    requires offset < |s.messages| && count == Min(limit, |s.messages| - offset)
    requires startSeq == s.first + |s.messages| - offset - count
    ensures Reversed(Decoded(Slice(s, startSeq, count), decode)) == Page(s, limit, offset, decode)
  {
    var batch := Slice(s, startSeq, count);
    var total := |s.messages|;
    var from, to := Clamp(offset, total), Clamp(offset + limit, total);
    BatchIsSlice(s, limit, offset, startSeq, count);
    ReversedSlice(s.messages, from, to);
    ReversedDecoded(batch, decode);
  }

  lemma BatchIsSlice(s: Stream, limit: nat, offset: int, startSeq: nat, count: nat)
    requires offset < |s.messages| && count == Min(limit, |s.messages| - offset)
    requires startSeq == s.first + |s.messages| - offset - count
    ensures
      var total := |s.messages|;
      Slice(s, startSeq, count) == s.messages[total - Clamp(offset + limit, total)..total - Clamp(offset, total)]
  {
  }

  lemma ReversedSlice<T>(s: seq<T>, from: nat, to: nat)
    requires from <= to <= |s|
    ensures Reversed(s[|s| - to..|s| - from]) == Reversed(s)[from..to]
  {
    var part := s[|s| - to..|s| - from];
    assert forall i | 0 <= i < to - from ::
      Reversed(part)[i] == part[to - from - 1 - i] == s[|s| - 1 - (from + i)] == Reversed(s)[from..to][i];
  }

  // -------------------------------------------------------- a log with gaps

  /** The sequence numbers of a log from which messages were deleted, oldest first. */
  predicate Ascending(numbers: seq<nat>) {
    forall i, j | 0 <= i < j < |numbers| :: numbers[i] < numbers[j]
  }

  /** Where a consumer that starts at a sequence number begins: the number's own message,
      or the next one there is. */
  function Position(numbers: seq<nat>, startSeq: nat): (at: nat)
    ensures at <= |numbers|
    ensures forall i | 0 <= i < at :: numbers[i] < startSeq
    ensures at < |numbers| ==> numbers[at] >= startSeq
  {
    if numbers == [] || numbers[0] >= startSeq then 0 else 1 + Position(numbers[1..], startSeq)
  }

  lemma {:induction false} AtLeastSpaced(numbers: seq<nat>, i: nat)
    requires Ascending(numbers) && i < |numbers|
    ensures numbers[i] >= numbers[0] + i
  {
    if i == 0 {
    } else {
      AtLeastSpaced(numbers, i - 1);
    }
  }

  /** The sequence arithmetic counts on there being no gap: a page begins at the message it
      is meant to, the one with at older ones before it, exactly if there is no gap among
      these older ones. */
  lemma PageBeginsRightIff(numbers: seq<nat>, at: nat)
    requires Ascending(numbers) && at < |numbers|
    ensures Position(numbers, numbers[0] + at) == at <==> forall i | 0 <= i < at :: numbers[i] == numbers[0] + i
  {
    AtLeastSpaced(numbers, at);
    if at > 0 {
      AtLeastSpaced(numbers, at - 1);
      if numbers[at - 1] == numbers[0] + at - 1 {
        forall i | 0 <= i < at
          ensures numbers[i] == numbers[0] + i
        {
          AtLeastSpaced(numbers, i);
          AtLeastSpaced(numbers[i..at], at - 1 - i);
        }
      }
    }
  }

  // ------------------------------------------- the pages of a log at rest

  /** The pages at offset, offset + limit, ..., one after the other. */
  function PagesFrom<E>(s: Stream, limit: nat, offset: nat, decode: string -> Option<E>): seq<E>
    requires limit > 0
    decreases |s.messages| - offset
  {
    if offset >= |s.messages| then []
    else Page(s, limit, offset, decode) + PagesFrom(s, limit, offset + limit, decode)
  }

  lemma {:induction false} PagesAreTheRest<E>(s: Stream, limit: nat, offset: nat, decode: string -> Option<E>)
    requires limit > 0 && offset <= |s.messages|
    ensures PagesFrom(s, limit, offset, decode) == Decoded(Reversed(s.messages)[offset..], decode)
    decreases |s.messages| - offset
  {
    var r := Reversed(s.messages);
    if offset == |r| {
      assert r[offset..] == [];
    } else {
      var next := Clamp(offset + limit, |r|);
      PagesAreTheRest(s, limit, next, decode);
      DecodedAppend(r[offset..next], r[next..], decode);
      assert r[offset..] == r[offset..next] + r[next..];
      PagesFromNext(s, limit, offset, decode);
    }
  }

  /** Beyond the end there are no pages. */
  lemma PagesFromNext<E>(s: Stream, limit: nat, offset: nat, decode: string -> Option<E>)
    requires limit > 0 && offset < |s.messages|
    ensures
      var next := Clamp(offset + limit, |s.messages|);
      PagesFrom(s, limit, offset, decode)
      == Decoded(Reversed(s.messages)[offset..next], decode) + PagesFrom(s, limit, next, decode)
  {
  }

  /** On a log at rest the pages concatenate to the whole list, each entry once. */
  lemma PagesAreTheList<E>(s: Stream, limit: nat, decode: string -> Option<E>)
    requires limit > 0
    ensures PagesFrom(s, limit, 0, decode) == Decoded(Reversed(s.messages), decode)
  {
    PagesAreTheRest(s, limit, 0, decode);
    assert Reversed(s.messages)[0..] == Reversed(s.messages);
  }

  // --------------------------------------------- the pages of a log in motion

  /** Between two calls messages were appended and the oldest discarded. */
  ghost predicate Evolves(s: Stream, t: Stream) {
    exists appended: seq<string>, dropped: nat ::
      dropped <= |s.messages + appended| && t == Stream(s.first + dropped, (s.messages + appended)[dropped..])
  }

  /** The message with this sequence number is in the stream. */
  predicate Holds(s: Stream, n: nat) {
    s.first <= n < s.first + |s.messages|
  }

  function MessageAt(s: Stream, n: nat): string
    requires Holds(s, n)
  {
    s.messages[n - s.first]
  }

  /** A scan: call i at offset i * limit finds log[i]; every call but the last finds
      its offset below the total, the last one does not. */
  ghost predicate Scan(log: seq<Stream>, limit: nat) {
    && |log| > 0 && limit > 0
    && (forall i | 0 <= i < |log| - 1 :: Evolves(log[i], log[i + 1]))
    && (forall i | 0 <= i < |log| - 1 :: i * limit < |log[i].messages|)
    && (|log| - 1) * limit >= |log[|log| - 1].messages|
  }

  /** How many newer messages there are; it never shrinks. */
  function Depth(s: Stream, n: nat): int {
    s.first + |s.messages| - 1 - n
  }

  lemma EvolvesKeeps(s: Stream, t: Stream, n: nat)
    requires Evolves(s, t)
    ensures Depth(s, n) <= Depth(t, n)
    ensures Holds(s, n) && Holds(t, n) ==> MessageAt(s, n) == MessageAt(t, n)
  {
  }

  /** From a call on whose page does not begin beyond a depth that only grows, some
      call's page reaches it. */
  lemma {:induction false} PageReaching(log: seq<Stream>, limit: nat, n: nat, from: nat, last: nat) returns (i: nat)
    requires Scan(log, limit) && from <= last < |log| && from * limit <= Depth(log[from], n)
    requires Depth(log[last], n) < (last + 1) * limit
    ensures from <= i <= last && i * limit <= Depth(log[i], n) < (i + 1) * limit
    decreases last
  {
    if last == from || last * limit <= Depth(log[last], n) {
      i := last;
    } else {
      EvolvesKeeps(log[last - 1], log[last], n);
      i := PageReaching(log, limit, n, from, last - 1);
    }
  }

  /** Paging never skips: an entry that is in the log during the whole scan is on the
      page of one of its calls, whatever is appended or discarded between the calls. */
  lemma PagingNeverSkips<E>(log: seq<Stream>, limit: nat, n: nat, decode: string -> Option<E>) returns (i: nat)
    requires Scan(log, limit) && Stays(log, n)
    requires decode(MessageAt(log[0], n)).Some?
    ensures i < |log| - 1 && MessageAt(log[i], n) == MessageAt(log[0], n)
    ensures decode(MessageAt(log[0], n)).value in Page(log[i], limit, i * limit, decode)
  {
    var last := |log| - 1;
    assert Holds(log[last], n) && Holds(log[0], n);
    i := PageReaching(log, limit, n, 0, last);
    assert Holds(log[i], n);
    assert i * limit <= Depth(log[i], n) < |log[i].messages|;
    assert i < last;
    SameMessage(log, limit, n, i);
    OnPage(log[i], limit, i * limit, n, decode);
  }

  lemma {:induction false} SameMessage(log: seq<Stream>, limit: nat, n: nat, i: nat)
    requires Scan(log, limit) && i < |log| && Stays(log, n)
    ensures MessageAt(log[i], n) == MessageAt(log[0], n)
    decreases i
  {
    if i == 0 {
    } else {
      SameMessage(log, limit, n, i - 1);
      EvolvesKeeps(log[i - 1], log[i], n);
    }
  }

  /** A page holds every decodable entry that it shows. */
  lemma OnPage<E>(s: Stream, limit: nat, offset: nat, n: nat, decode: string -> Option<E>)
    requires Shows(s, limit, offset, n) && decode(MessageAt(s, n)).Some?
    ensures decode(MessageAt(s, n)).value in Page(s, limit, offset, decode)
  {
    var r := Reversed(s.messages);
    var page := r[offset..Clamp(offset + limit, |r|)];
    assert page[Depth(s, n) - offset] == MessageAt(s, n);
    DecodedHolds(page, Depth(s, n) - offset, decode);
  }

  lemma {:induction false} DecodedHolds<E>(messages: seq<string>, k: nat, decode: string -> Option<E>)
    requires k < |messages| && decode(messages[k]).Some?
    ensures decode(messages[k]).value in Decoded(messages, decode)
    decreases |messages|
  {
    if k == |messages| - 1 {
    } else {
      DecodedHolds(messages[..|messages| - 1], k, decode);
    }
  }

  // -------------------------------------------------- how often an entry is shown

  /** The sequence numbers on a page, newest first. */
  function Numbers(s: Stream, limit: nat, offset: nat): seq<nat> {
    if offset >= |s.messages| then []
    else
      var newest := s.first + |s.messages| - 1;
      seq(Min(limit, |s.messages| - offset), i requires 0 <= i < |s.messages| - offset => newest - offset - i)
  }

  /** The page at this offset shows the message with this number. */
  predicate Shows(s: Stream, limit: nat, offset: nat, n: nat) {
    Holds(s, n) && offset <= Depth(s, n) < offset + limit
  }

  /** A page is its messages, decoded: each that it shows, once. */
  lemma PageIsItsMessages<E>(s: Stream, limit: nat, offset: nat, decode: string -> Option<E>)
    requires limit > 0
    ensures
      var numbers := Numbers(s, limit, offset);
      && (forall n: nat :: n in numbers <==> Shows(s, limit, offset, n))
      && (forall i, j | 0 <= i < j < |numbers| :: numbers[i] > numbers[j])
      && Page(s, limit, offset, decode)
         == Decoded(seq(|numbers|, i requires 0 <= i < |numbers| =>
                      if Holds(s, numbers[i]) then MessageAt(s, numbers[i]) else ""), decode)
  {
    var numbers := Numbers(s, limit, offset);
    forall n: nat
      ensures n in numbers <==> Shows(s, limit, offset, n)
    {
      if Shows(s, limit, offset, n) {
        assert numbers[Depth(s, n) - offset] == n;
      }
    }
    if offset < |s.messages| {
      var page := Reversed(s.messages)[offset..Clamp(offset + limit, |s.messages|)];
      var messages := seq(|numbers|, i requires 0 <= i < |numbers| =>
                        if Holds(s, numbers[i]) then MessageAt(s, numbers[i]) else "");
      assert forall i | 0 <= i < |numbers| :: messages[i] == page[i];
      assert messages == page;
    }
  }

  /** The entry stays in the log during the whole scan. */
  predicate Stays(log: seq<Stream>, n: nat) {
    forall k | 0 <= k < |log| :: Holds(log[k], n)
  }

  /** An entry is shown by some call after call i exactly if, by some later call, so many
      entries have come in that it lies no higher than that call's offset. */
  lemma ShownAfterIff(log: seq<Stream>, limit: nat, n: nat, i: nat)
    requires Scan(log, limit) && Stays(log, n) && i < |log|
    ensures (exists k | i < k < |log| :: Shows(log[k], limit, k * limit, n))
      <==> (exists j | i < j < |log| :: Depth(log[j], n) >= j * limit)
  {
    if j :| i < j < |log| && Depth(log[j], n) >= j * limit {
      var last := |log| - 1;
      assert Holds(log[last], n);
      var k := PageReaching(log, limit, n, j, last);
      assert Holds(log[k], n) && Shows(log[k], limit, k * limit, n);
    }
  }

  /** An entry is shown only once exactly if, after the call that shows it, the entries
      that come in never push it as far down as a later call's offset. */
  lemma ShownOnceIff(log: seq<Stream>, limit: nat, n: nat)
    requires Scan(log, limit) && Stays(log, n)
    ensures (forall i, k | 0 <= i < k < |log| ::
               !(Shows(log[i], limit, i * limit, n) && Shows(log[k], limit, k * limit, n)))
      <==> (forall i, j | 0 <= i < j < |log| ::
               Shows(log[i], limit, i * limit, n) ==> Depth(log[j], n) < j * limit)
  {
    forall i: nat | i < |log| && Shows(log[i], limit, i * limit, n)
      ensures (forall k | i < k < |log| :: !Shows(log[k], limit, k * limit, n))
        <==> (forall j | i < j < |log| :: Depth(log[j], n) < j * limit)
    {
      ShownAfterIff(log, limit, n, i);
    }
  }

  /** Nothing comes in during the scan; old entries may still be discarded. */
  predicate Quiet(log: seq<Stream>) {
    forall k | 0 <= k < |log| :: log[k].first + |log[k].messages| == log[0].first + |log[0].messages|
  }

  /** Then every entry that stays is shown by one call and by no other. */
  lemma QuietScansShowOnce(log: seq<Stream>, limit: nat, n: nat) returns (i: nat)
    requires Scan(log, limit) && Stays(log, n) && Quiet(log)
    ensures i < |log|
    ensures forall k | 0 <= k < |log| :: Shows(log[k], limit, k * limit, n) <==> k == i
  {
    var last := |log| - 1;
    assert Holds(log[last], n) && Holds(log[0], n);
    i := PageReaching(log, limit, n, 0, last);
    assert Holds(log[i], n);
    forall k | 0 <= k < |log|
      ensures Shows(log[k], limit, k * limit, n) <==> k == i
    {
      assert Depth(log[k], n) == Depth(log[0], n) == Depth(log[i], n);
      if k < i {
        Below(k, i, limit);
      } else if i < k {
        Below(i, k, limit);
      }
    }
  }

  lemma Below(i: nat, k: nat, limit: nat)
    requires i < k
    ensures (i + 1) * limit <= k * limit
  {
  }

  /** Never skipping is not the same as never repeating: one append after the first call of
      a scan, and its second page shows the first one's entry again. */
  lemma AppendRepeatsAnEntry<E>(first: nat, entry: string, later: string, decode: string -> Option<E>)
    requires decode(entry).Some?
    ensures
      var before := Stream(first, [entry]);
      var after := Stream(first, [entry, later]);
      var log := [before, after, after];
      && Scan(log, 1) && Stays(log, first)
      && Shows(before, 1, 0, first) && Shows(after, 1, 1, first)
      && Page(before, 1, 0, decode) == [decode(entry).value] == Page(after, 1, 1, decode)
  {
    var before, after := Stream(first, [entry]), Stream(first, [entry, later]);
    assert before.messages + [later] == after.messages && after.messages[0..] == after.messages;
    assert Evolves(before, after);
    assert after.messages + [] == after.messages;
    assert Evolves(after, after);
    assert Reversed(before.messages)[0..1] == [entry] && Reversed(after.messages)[1..2] == [entry];
    assert [entry][..0] == [];
    assert Decoded([entry], decode) == [decode(entry).value];
  }
}
