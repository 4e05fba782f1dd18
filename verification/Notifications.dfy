/** The one message this service sends: an aggregate was voided. */
module Notifications {
  import opened Wrappers
  import opened Domain
  import opened Messages

  const ROUTING_KEY := "your-aggregate-service"
  const VOIDED_FUNCTION := Member("your_aggregate_voided")

  function Note(traceId: string, id: Uuid): Pushed<Uuid> {
    Pushed(ROUTING_KEY, Message(traceId, VOIDED_FUNCTION, ListData([id]), None, 3, 3))
  }

  /** A buffer that holds nothing but notifications, which is all this service ever pushes. */
  ghost predicate NotesOnly(b: Buffer<Uuid>) {
    && Orderly(b)
    && (forall i :: 0 <= i < |b| ==> NoteEntries(b[i].entries))
  }

  ghost predicate NoteEntries(es: seq<Entry<Uuid>>) {
    forall j :: 0 <= j < |es| ==> es[j].message.functionName == VOIDED_FUNCTION && es[j].message.data.ListData?
  }

  lemma SameSuffix(a: string, b: string, suffix: string)
    requires a + suffix == b + suffix
    ensures a == b
  {
    assert |a| == |b|;
    assert a == (a + suffix)[..|a|] && b == (b + suffix)[..|b|];
  }

  /** Notifications never collide: pushing one succeeds and leaves only notifications. */
  lemma NotePushes(b: Buffer<Uuid>, traceId: string, id: Uuid)
    requires NotesOnly(b)
    ensures Push(b, Note(traceId, id)).Success? && NotesOnly(Push(b, Note(traceId, id)).value)
  {
    var p := Note(traceId, id);
    var i := BucketAt(b, ROUTING_KEY);
    if i < |b| {
      var es := b[i].entries;
      var j := EntryAt(es, Key(p.message));
      assert OrderlyEntries(es) && NoteEntries(es);
      if j < |es| {
        SameSuffix(es[j].message.traceId + "_", traceId + "_", "your_aggregate_voided");
        SameSuffix(es[j].message.traceId, traceId, "_");
      }
      assert NoteEntries(Push(b, p).value[i].entries);
    } else {
      assert NoteEntries([Entry(Key(p.message), p.message)]);
    }
    PushKeepsOrderly(b, p);
  }

  function PushNotes(b: Buffer<Uuid>, traceId: string, ids: seq<Uuid>): (b': Buffer<Uuid>)
    requires NotesOnly(b)
    ensures NotesOnly(b')
  {
    if ids == [] then b
    else
      var b1 := PushNotes(b, traceId, ids[..|ids| - 1]);
      NotePushes(b1, traceId, ids[|ids| - 1]);
      Push(b1, Note(traceId, ids[|ids| - 1])).value
  }

  predicate IsSuffix(es: seq<Entry<Uuid>>, of: seq<Entry<Uuid>>) {
    |es| <= |of| && es == of[|of| - |es|..]
  }

  /** Dropping shortens buckets from the front, and leaves their order and keys. */
  lemma {:induction false} DropLeavesSuffixes(b: Buffer<Uuid>, n: nat)
    ensures |Drop(b, n)| == |b|
    ensures forall i :: 0 <= i < |b| ==> Drop(b, n)[i].routingKey == b[i].routingKey && IsSuffix(Drop(b, n)[i].entries, b[i].entries)
  {
    if b != [] && n > |b[0].entries| {
      var rest := Drop(b[1..], n - |b[0].entries|);
      DropLeavesSuffixes(b[1..], n - |b[0].entries|);
      assert Drop(b, n) == [b[0].(entries := [])] + rest;
      forall i | 0 <= i < |b| ensures Drop(b, n)[i].routingKey == b[i].routingKey && IsSuffix(Drop(b, n)[i].entries, b[i].entries) {
        if i > 0 { assert b[i] == b[1..][i - 1] && Drop(b, n)[i] == rest[i - 1]; }
      }
    }
  }

  lemma SuffixKeepsNotes(es: seq<Entry<Uuid>>, of: seq<Entry<Uuid>>)
    requires IsSuffix(es, of) && OrderlyEntries(of) && NoteEntries(of)
    ensures OrderlyEntries(es) && NoteEntries(es)
  {
  }

  lemma DropKeepsNotes(b: Buffer<Uuid>, n: nat)
    requires NotesOnly(b)
    ensures NotesOnly(Drop(b, n))
  {
    DropLeavesSuffixes(b, n);
    forall i | 0 <= i < |b| ensures OrderlyEntries(Drop(b, n)[i].entries) && NoteEntries(Drop(b, n)[i].entries) {
      SuffixKeepsNotes(Drop(b, n)[i].entries, b[i].entries);
    }
  }

  // ---------- the ids that messages carry ----------

  /** Every aggregate id in the given messages, in order. */
  function IdsSent(ps: seq<Pushed<Uuid>>): seq<Uuid> {
    if ps == [] then []
    else IdsSent(ps[..|ps| - 1]) + IdsIn(ps[|ps| - 1].message)
  }

  function IdsIn(m: Message<Uuid>): seq<Uuid> {
    if m.data.ListData? then m.data.items else []
  }

  lemma {:induction false} IdsSentConcat(a: seq<Pushed<Uuid>>, b: seq<Pushed<Uuid>>)
    ensures IdsSent(a + b) == IdsSent(a) + IdsSent(b)
  {
    if b == [] {
      assert a + b == a;
    } else {
      assert (a + b)[..|a + b| - 1] == a + b[..|b| - 1];
      IdsSentConcat(a, b[..|b| - 1]);
    }
  }

  /** A first part and the rest. */
  lemma IdsSentSplit(ps: seq<Pushed<Uuid>>, n: nat)
    requires n <= |ps|
    ensures IdsSent(ps) == IdsSent(ps[..n]) + IdsSent(ps[n..])
  {
    var front, back := ps[..n], ps[n..];
    assert front + back == ps;
    IdsSentConcat(front, back);
  }

  // ---------- the ids that wait in the buffer ----------

  ghost predicate InBucket(es: seq<Entry<Uuid>>, id: Uuid) {
    exists j :: 0 <= j < |es| && id in IdsIn(es[j].message)
  }

  ghost predicate Waits(b: Buffer<Uuid>, id: Uuid) {
    exists i :: 0 <= i < |b| && InBucket(b[i].entries, id)
  }

  lemma {:induction false} IdsSentHas(ps: seq<Pushed<Uuid>>, id: Uuid)
    ensures id in IdsSent(ps) <==> exists k :: 0 <= k < |ps| && id in IdsIn(ps[k].message)
  {
    if ps != [] {
      var n := |ps| - 1;
      IdsSentHas(ps[..n], id);
      assert forall k :: 0 <= k < n ==> ps[..n][k] == ps[k];
    }
  }

  lemma BucketHas(bucket: Bucket<Uuid>, id: Uuid)
    ensures id in IdsSent(FlatBucket(bucket, 0)) <==> InBucket(bucket.entries, id)
  {
    IdsSentHas(FlatBucket(bucket, 0), id);
    assert forall k :: 0 <= k < |bucket.entries| ==> FlatBucket(bucket, 0)[k].message == bucket.entries[k].message;
  }

  /** An id waits exactly if a drain would send it. */
  lemma {:induction false} FlatHas(b: Buffer<Uuid>, id: Uuid)
    ensures id in IdsSent(Flat(b)) <==> Waits(b, id)
  {
    if b != [] {
      FlatHas(b[1..], id);
      BucketHas(b[0], id);
      IdsSentConcat(FlatBucket(b[0], 0), Flat(b[1..]));
      assert forall i :: 1 <= i < |b| ==> b[i] == b[1..][i - 1];
    }
  }

  lemma PushEntriesWaits(es: seq<Entry<Uuid>>, m: Message<Uuid>, id: Uuid)
    requires NoteEntries(es) && m.data.ListData? && PushEntries(es, m).Success?
    ensures InBucket(PushEntries(es, m).value, id) <==> InBucket(es, id) || id in m.data.items
  {
    var j, after := EntryAt(es, Key(m)), PushEntries(es, m).value;
    assert j < |after| && forall k :: 0 <= k < |es| && k != j ==> after[k] == es[k];
    assert id in IdsIn(after[j].message) <==> (j < |es| && id in IdsIn(es[j].message)) || id in m.data.items;
  }

  lemma PushWaits(b: Buffer<Uuid>, traceId: string, pushed: Uuid, id: Uuid)
    requires NotesOnly(b) && Push(b, Note(traceId, pushed)).Success?
    ensures Waits(Push(b, Note(traceId, pushed)).value, id) <==> Waits(b, id) || id == pushed
  {
    var p, i, b' := Note(traceId, pushed), BucketAt(b, ROUTING_KEY), Push(b, Note(traceId, pushed)).value;
    assert i < |b'| && forall k :: 0 <= k < |b| && k != i ==> b'[k] == b[k];
    if i < |b| {
      PushEntriesWaits(b[i].entries, p.message, id);
      assert InBucket(b'[i].entries, id) <==> InBucket(b[i].entries, id) || id == pushed;
    } else {
      assert b'[i].entries == [Entry(Key(p.message), p.message)];
      assert b'[i].entries[0].message == p.message;
      assert InBucket(b'[i].entries, id) <==> id == pushed;
    }
  }

  lemma {:induction false} PushNotesWait(b: Buffer<Uuid>, traceId: string, pushed: seq<Uuid>, id: Uuid)
    requires NotesOnly(b)
    ensures Waits(PushNotes(b, traceId, pushed), id) <==> Waits(b, id) || id in pushed
  {
    if pushed != [] {
      var front, last := pushed[..|pushed| - 1], pushed[|pushed| - 1];
      PushNotesWait(b, traceId, front, id);
      NotePushes(PushNotes(b, traceId, front), traceId, last);
      PushWaits(PushNotes(b, traceId, front), traceId, last, id);
      assert pushed == front + [last];
    }
  }

  /** What a drain sends and what it leaves: every id that waited is in one of the two. */
  lemma DrainSplits(b: Buffer<Uuid>, drain: DrainFault, id: Uuid)
    ensures var flat := Flat(b);
            && (id in IdsSent(flat[..SentUnder(drain, |flat|)]) ==> Waits(b, id))
            && (Waits(Drop(b, PoppedUnder(drain, |flat|)), id) ==> Waits(b, id))
            && (Waits(b, id) ==> id in IdsSent(flat[..SentUnder(drain, |flat|)]) || Waits(Drop(b, PoppedUnder(drain, |flat|)), id))
            && (Completes(drain, |flat|) && Waits(b, id) ==> id in IdsSent(flat[..SentUnder(drain, |flat|)]))
  {
    var flat := Flat(b);
    FlatHas(b, id);
    FlatHas(Drop(b, PoppedUnder(drain, |flat|)), id);
    DropFlat(b, PoppedUnder(drain, |flat|));
    SentAndLeft(flat, SentUnder(drain, |flat|), PoppedUnder(drain, |flat|), id);
    if Completes(drain, |flat|) { assert flat[..|flat|] == flat; }
  }

  lemma SentAndLeft(flat: seq<Pushed<Uuid>>, sent: nat, popped: nat, id: Uuid)
    requires popped <= sent <= |flat|
    ensures id in IdsSent(flat) <==> id in IdsSent(flat[..sent]) || id in IdsSent(flat[popped..])
  {
    IdsSentSplit(flat, sent);
    IdsSentSplit(flat, popped);
    IdsSentSplit(flat[..sent], popped);
    assert flat[..sent][..popped] == flat[..popped];
  }
}
