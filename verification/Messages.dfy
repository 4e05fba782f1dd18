/** Queue messages, the buffer they wait in until a transaction has committed, and the draining
    of that buffer to the broker. */
module Messages {
  import opened Wrappers

  /** A function name is plain text or a member of an enumeration; the two are never equal,
      even when the member's value is that text. */
  datatype FunctionName = Text(text: string) | Member(value: string)

  function NameOf(f: FunctionName): string {
    if f.Text? then f.text else f.value
  }

  datatype Data<T> = ListData(items: seq<T>) | DictData(fields: map<string, T>)

  datatype Message<T> = Message(traceId: string, functionName: FunctionName, data: Data<T>,
                                started: Option<int>, attempts: int, delay: int)

  /** A publication is sent, or raises before it is sent, or raises after. */
  datatype PublishResult = Sent | NotSent | SentThenRaised

  datatype MergeError = TraceDiffers | FunctionDiffers | DataTypeDiffers | DictNotSupported

  /** A push that raises: refused by the buffer, or not published at once. */
  datatype PushError = NotMerged(reason: MergeError) | NotPublished

  function Merge<T>(m: Message<T>, o: Message<T>): Result<Message<T>, MergeError> {
    if o.traceId != m.traceId then Failure(TraceDiffers)
    else if o.functionName != m.functionName then Failure(FunctionDiffers)
    else if o.data.ListData? != m.data.ListData? then Failure(DataTypeDiffers)
    else if m.data.DictData? then Failure(DictNotSupported)
    else Success(m.(data := ListData(m.data.items + o.data.items)))
  }

  /** Two messages merge exactly if they are lists for one trace and function; the items of the later
      come after those of the earlier, whose schedule, attempts and delay stay. */
  lemma MergeMeans<T>(m: Message<T>, o: Message<T>)
    ensures Merge(m, o).Success? <==> m.traceId == o.traceId && m.functionName == o.functionName && m.data.ListData? && o.data.ListData?
    ensures Merge(m, o).Success? ==>
              Merge(m, o).value == Message(m.traceId, m.functionName, ListData(m.data.items + o.data.items), m.started, m.attempts, m.delay)
    ensures Merge(m, o) == Failure(TraceDiffers) <==> m.traceId != o.traceId
    ensures Merge(m, o) == Failure(FunctionDiffers) <==> m.traceId == o.traceId && m.functionName != o.functionName
    ensures Merge(m, o) == Failure(DictNotSupported)
       <==> m.traceId == o.traceId && m.functionName == o.functionName && m.data.DictData? && o.data.DictData?
  {
  }

  // ---------- the buffer: a dictionary of dictionaries, both in insertion order ----------

  datatype Entry<T> = Entry(key: string, message: Message<T>)
  datatype Bucket<T> = Bucket(routingKey: string, entries: seq<Entry<T>>)
  type Buffer<T> = seq<Bucket<T>>
  datatype Pushed<T> = Pushed(routingKey: string, message: Message<T>)

  function Key<T>(m: Message<T>): string {
    m.traceId + "_" + NameOf(m.functionName)
  }

  /** The position of a routing key, or the length of the buffer. */
  function BucketAt<T>(b: Buffer<T>, routingKey: string): (i: nat)
    ensures i <= |b| && (i < |b| ==> b[i].routingKey == routingKey)
    ensures forall j :: 0 <= j < i ==> b[j].routingKey != routingKey
  {
    if b == [] || b[0].routingKey == routingKey then 0 else 1 + BucketAt(b[1..], routingKey)
  }

  lemma BucketIs<T>(b: Buffer<T>, routingKey: string, i: nat)
    requires i <= |b| && (i < |b| ==> b[i].routingKey == routingKey)
    requires forall j :: 0 <= j < i ==> b[j].routingKey != routingKey
    ensures BucketAt(b, routingKey) == i
  {
  }

  /** The position of an entry key, or the number of entries. */
  function EntryAt<T>(entries: seq<Entry<T>>, key: string): (i: nat)
    ensures i <= |entries| && (i < |entries| ==> entries[i].key == key)
    ensures forall j :: 0 <= j < i ==> entries[j].key != key
  {
    if entries == [] || entries[0].key == key then 0 else 1 + EntryAt(entries[1..], key)
  }

  function PushEntries<T>(es: seq<Entry<T>>, m: Message<T>): Result<seq<Entry<T>>, MergeError> {
    var j := EntryAt(es, Key(m));
    if j == |es| then Success(es + [Entry(Key(m), m)])
    else
      match Merge(es[j].message, m)
      case Failure(x) => Failure(x)
      case Success(m') => Success(es[j := es[j].(message := m')])
  }

  /** A push adds a message under a new key, or merges it into the one that is there; a merge
      that is refused changes nothing. */
  function Push<T>(b: Buffer<T>, p: Pushed<T>): Result<Buffer<T>, MergeError> {
    var i := BucketAt(b, p.routingKey);
    if i == |b| then Success(b + [Bucket(p.routingKey, [Entry(Key(p.message), p.message)])])
    else
      match PushEntries(b[i].entries, p.message)
      case Failure(x) => Failure(x)
      case Success(es) => Success(b[i := b[i].(entries := es)])
  }

  ghost predicate Orderly<T>(b: Buffer<T>) {
    && (forall i, j :: 0 <= i < j < |b| ==> b[i].routingKey != b[j].routingKey)
    && (forall i :: 0 <= i < |b| ==> OrderlyEntries(b[i].entries))
  }

  ghost predicate OrderlyEntries<T>(es: seq<Entry<T>>) {
    && (forall j, k :: 0 <= j < k < |es| ==> es[j].key != es[k].key)
    && (forall j :: 0 <= j < |es| ==> es[j].key == Key(es[j].message))
  }

  lemma PushEntriesOrderly<T>(es: seq<Entry<T>>, m: Message<T>)
    requires OrderlyEntries(es) && PushEntries(es, m).Success?
    ensures OrderlyEntries(PushEntries(es, m).value)
  {
  }

  lemma PushKeepsOrderly<T>(b: Buffer<T>, p: Pushed<T>)
    requires Orderly(b) && Push(b, p).Success?
    ensures Orderly(Push(b, p).value)
  {
    var i := BucketAt(b, p.routingKey);
    if i < |b| {
      PushEntriesOrderly(b[i].entries, p.message);
    } else {
      assert OrderlyEntries([Entry(Key(p.message), p.message)]);
    }
  }

  // ---------- merge conservation ----------

  /** Everything the entries hold for one trace and function, in entry order. */
  function HeldIn<T>(es: seq<Entry<T>>, trace: string, f: FunctionName): seq<T> {
    if es == [] then []
    else HeldIn(es[..|es| - 1], trace, f) + Contribution(es[|es| - 1].message, trace, f)
  }

  function Contribution<T>(m: Message<T>, trace: string, f: FunctionName): seq<T> {
    if m.traceId == trace && m.functionName == f && m.data.ListData? then m.data.items else []
  }

  function Held<T>(b: Buffer<T>, routingKey: string, trace: string, f: FunctionName): seq<T> {
    var i := BucketAt(b, routingKey);
    if i == |b| then [] else HeldIn(b[i].entries, trace, f)
  }

  /** Everything pushed for one routing key, trace and function, in push order. */
  function PushedFor<T>(ps: seq<Pushed<T>>, routingKey: string, trace: string, f: FunctionName): seq<T> {
    if ps == [] then []
    else
      var p := ps[|ps| - 1];
      PushedFor(ps[..|ps| - 1], routingKey, trace, f)
      + If(p.routingKey == routingKey, Contribution(p.message, trace, f))
  }

  /** Pushes in order: the buffer they lead to, and those that were not refused. */
  function PushEach<T>(b: Buffer<T>, ps: seq<Pushed<T>>): (Buffer<T>, seq<Pushed<T>>) {
    if ps == [] then (b, [])
    else
      var (before, taken) := PushEach(b, ps[..|ps| - 1]);
      match Push(before, ps[|ps| - 1])
      case Failure(_) => (before, taken)
      case Success(after) => (after, taken + [ps[|ps| - 1]])
  }

  /** Keys of one trace and function name are one key; so at most one entry has them. */
  ghost predicate OneEntryEach<T>(b: Buffer<T>) {
    forall i :: 0 <= i < |b| ==>
      forall j, k :: 0 <= j < k < |b[i].entries| ==>
        b[i].entries[j].message.traceId != b[i].entries[k].message.traceId
        || b[i].entries[j].message.functionName != b[i].entries[k].message.functionName
  }

  lemma OrderlyOneEntryEach<T>(b: Buffer<T>)
    requires Orderly(b)
    ensures OneEntryEach(b)
  {
    forall i, j, k | 0 <= i < |b| && 0 <= j < k < |b[i].entries|
      ensures b[i].entries[j].message.traceId != b[i].entries[k].message.traceId
              || b[i].entries[j].message.functionName != b[i].entries[k].message.functionName {
      assert OrderlyEntries(b[i].entries);
    }
  }

  function If<T>(b: bool, items: seq<T>): seq<T> {
    if b then items else []
  }

  lemma {:induction false} HeldInUpdate<T>(es: seq<Entry<T>>, j: nat, e': Entry<T>, added: seq<T>, trace: string, f: FunctionName)
    requires j < |es|
    requires Contribution(e'.message, trace, f) == Contribution(es[j].message, trace, f) + added
    requires added != [] ==> forall n :: j < n < |es| ==> Contribution(es[n].message, trace, f) == []
    ensures HeldIn(es[j := e'], trace, f) == HeldIn(es, trace, f) + added
    decreases |es|
  {
    var n := |es| - 1;
    UpdateFront(es, j, e');
    if j < n { HeldInUpdate(es[..n], j, e', added, trace, f); }
  }

  lemma UpdateFront<T>(es: seq<Entry<T>>, j: nat, e': Entry<T>)
    requires j < |es|
    ensures var es', n := es[j := e'], |es| - 1;
            es'[..n] == (if j == n then es[..n] else es[..n][j := e']) && es'[n] == if j == n then e' else es[n]
  {
  }

  lemma OtherKeyContributesNothing<T>(es: seq<Entry<T>>, j: nat, n: nat, trace: string, f: FunctionName)
    requires j < n < |es| && OrderlyEntries(es)
    requires es[j].message.traceId == trace && es[j].message.functionName == f
    ensures Contribution(es[n].message, trace, f) == []
  {
    assert es[j].key != es[n].key;
  }

  /** One push that is not refused adds the items of its list to what is held for its own routing key, trace and
      function, at the end, and to nothing else. */
  lemma PushHolds<T>(b: Buffer<T>, p: Pushed<T>, routingKey: string, trace: string, f: FunctionName)
    requires Orderly(b) && Push(b, p).Success?
    ensures Held(Push(b, p).value, routingKey, trace, f)
            == Held(b, routingKey, trace, f) + If(p.routingKey == routingKey, Contribution(p.message, trace, f))
  {
    var b' := Push(b, p).value;
    var i, k := BucketAt(b, p.routingKey), BucketAt(b, routingKey);
    if i == |b| {
      var added := Entry(Key(p.message), p.message);
      if p.routingKey == routingKey {
        BucketIs(b', routingKey, |b|);
        assert [added][..0] == [] && HeldIn([added], trace, f) == [] + Contribution(p.message, trace, f);
      } else {
        BucketIs(b', routingKey, if k == |b| then |b'| else k);
      }
    } else {
      assert b' == b[i := b'[i]] && b'[i].routingKey == p.routingKey;
      BucketIs(b', routingKey, k);
      if p.routingKey == routingKey {
        PushHoldsEntries(b[i].entries, p, trace, f);
      }
    }
  }

  lemma PushHoldsEntries<T>(es: seq<Entry<T>>, p: Pushed<T>, trace: string, f: FunctionName)
    requires OrderlyEntries(es) && PushEntries(es, p.message).Success?
    ensures HeldIn(PushEntries(es, p.message).value, trace, f) == HeldIn(es, trace, f) + Contribution(p.message, trace, f)
  {
    var j := EntryAt(es, Key(p.message));
    if j == |es| {
      assert (es + [Entry(Key(p.message), p.message)])[..|es|] == es;
    } else {
      var e' := es[j].(message := Merge(es[j].message, p.message).value);
      if es[j].message.traceId == trace && es[j].message.functionName == f {
        forall n | j < n < |es| ensures Contribution(es[n].message, trace, f) == [] {
          OtherKeyContributesNothing(es, j, n, trace, f);
        }
      }
      HeldInUpdate(es, j, e', Contribution(p.message, trace, f), trace, f);
    }
  }

  /** Merge conservation: after any pushes, of lists or dicts, each routing key, trace and function
      has at most one buffered message, and the list items held for it are the concatenation of
      those pushed for it and not refused, in push order. */
  lemma {:induction false} MergeConserves<T>(ps: seq<Pushed<T>>, routingKey: string, trace: string, f: FunctionName)
    ensures var (b, taken) := PushEach([], ps);
            Orderly(b) && OneEntryEach(b) && Held(b, routingKey, trace, f) == PushedFor(taken, routingKey, trace, f)
    decreases |ps|
  {
    if ps != [] {
      var front, last := ps[..|ps| - 1], ps[|ps| - 1];
      MergeConserves(front, routingKey, trace, f);
      var (b, taken) := PushEach([], front);
      if Push(b, last).Success? {
        PushKeepsOrderly(b, last);
        OrderlyOneEntryEach(Push(b, last).value);
        PushHolds(b, last, routingKey, trace, f);
        assert (taken + [last])[..|taken|] == taken;
      }
    }
  }

  /** A push is refused exactly when its key is taken by a message that it may not merge with:
      another trace or function whose key text collides, another type of data, or two dicts. */
  lemma PushRefusedIff<T>(b: Buffer<T>, p: Pushed<T>)
    requires Orderly(b)
    ensures Push(b, p).Failure? <==>
            exists i, j :: 0 <= i < |b| && 0 <= j < |b[i].entries| && b[i].routingKey == p.routingKey
                           && Key(b[i].entries[j].message) == Key(p.message)
                           && (b[i].entries[j].message.traceId != p.message.traceId
                               || b[i].entries[j].message.functionName != p.message.functionName
                               || b[i].entries[j].message.data.DictData? || p.message.data.DictData?)
  {
    var i := BucketAt(b, p.routingKey);
    if i < |b| {
      assert OrderlyEntries(b[i].entries);
      var j := EntryAt(b[i].entries, Key(p.message));
      if j < |b[i].entries| {
        assert Key(b[i].entries[j].message) == Key(p.message);
      }
    }
  }

  /** The key text does not determine trace and function: two different pairs collide, and the
      second push is refused. */
  lemma CollidingKeys<T>(data: Data<T>)
    ensures var m, o := Message("a_b", Text("c"), data, None, 3, 3), Message("a", Text("b_c"), data, None, 3, 3);
            var (b, taken) := PushEach([], [Pushed("rk", m), Pushed("rk", o)]);
            Key(m) == Key(o) && Push(b, Pushed("rk", o)) == Failure(TraceDiffers) && taken == [Pushed("rk", m)]
  {
    var m, o := Message("a_b", Text("c"), data, None, 3, 3), Message("a", Text("b_c"), data, None, 3, 3);
    assert Key(m) == "a_b_c" == Key(o);
    var ps := [Pushed("rk", m), Pushed("rk", o)];
    var b := [Bucket("rk", [Entry("a_b_c", m)])];
    assert [] + [Bucket("rk", [Entry("a_b_c", m)])] == b && BucketAt<T>([], "rk") == 0;
    assert Push([], ps[0]) == Success(b);
    assert Push(b, ps[1]) == Failure(TraceDiffers);
    assert ps[..1] == [ps[0]] && ps[..1][..0] == [];
    assert PushEach<T>([], ps[..1][..0]) == ([], []);
    assert [] + [ps[0]] == [ps[0]];
    assert PushEach([], ps[..1]) == (b, [ps[0]]);
  }

  // ---------- the order of the buffer, and what a merged message keeps ----------

  /** The first push for a routing key, and the first for a routing key with a message of this key,
      or the number of pushes. */
  function FirstTo<T>(ps: seq<Pushed<T>>, routingKey: string): (n: nat)
    ensures n <= |ps| && (n < |ps| ==> ps[n].routingKey == routingKey)
    ensures forall l :: 0 <= l < n ==> ps[l].routingKey != routingKey
  {
    if ps == [] || ps[0].routingKey == routingKey then 0 else 1 + FirstTo(ps[1..], routingKey)
  }

  function FirstOf<T>(ps: seq<Pushed<T>>, routingKey: string, key: string): (n: nat)
    ensures n <= |ps| && (n < |ps| ==> ps[n].routingKey == routingKey && Key(ps[n].message) == key)
    ensures forall l :: 0 <= l < n ==> ps[l].routingKey != routingKey || Key(ps[l].message) != key
  {
    if ps == [] || (ps[0].routingKey == routingKey && Key(ps[0].message) == key) then 0 else 1 + FirstOf(ps[1..], routingKey, key)
  }

  /** An entry is the first message pushed for it, but for the items that were merged into it. */
  ghost predicate KeepsFirst<T>(e: Entry<T>, routingKey: string, ps: seq<Pushed<T>>) {
    var n := FirstOf(ps, routingKey, e.key);
    && n < |ps|
    && e.message == ps[n].message.(data := e.message.data)
    && (ps[n].message.data.DictData? ==> e.message == ps[n].message)
  }

  ghost predicate HaveKeys<T>(es: seq<Entry<T>>, routingKey: string, ps: seq<Pushed<T>>) {
    forall l :: 0 <= l < |ps| && ps[l].routingKey == routingKey ==> exists j :: 0 <= j < |es| && es[j].key == Key(ps[l].message)
  }

  ghost predicate EntriesAsPushed<T>(es: seq<Entry<T>>, routingKey: string, ps: seq<Pushed<T>>) {
    InKeyOrder(es, routingKey, ps) && HaveKeys(es, routingKey, ps)
  }

  ghost predicate InKeyOrder<T>(es: seq<Entry<T>>, routingKey: string, ps: seq<Pushed<T>>) {
    && (forall e :: e in es ==> KeepsFirst(e, routingKey, ps))
    && (forall j, k :: 0 <= j < k < |es| ==> FirstOf(ps, routingKey, es[j].key) < FirstOf(ps, routingKey, es[k].key))
  }

  ghost predicate InRoutingOrder<T>(b: Buffer<T>, ps: seq<Pushed<T>>) {
    && (forall i :: 0 <= i < |b| ==> FirstTo(ps, b[i].routingKey) < |ps|)
    && (forall i, k :: 0 <= i < k < |b| ==> FirstTo(ps, b[i].routingKey) < FirstTo(ps, b[k].routingKey))
    && (forall l :: 0 <= l < |ps| ==> exists i :: 0 <= i < |b| && b[i].routingKey == ps[l].routingKey)
  }

  /** The buckets are in the order in which their routing keys were first pushed for, and in each the
      entries in the order in which theirs were. */
  ghost predicate AsPushed<T>(b: Buffer<T>, ps: seq<Pushed<T>>) {
    InRoutingOrder(b, ps) && forall i :: 0 <= i < |b| ==> EntriesAsPushed(b[i].entries, b[i].routingKey, ps)
  }

  lemma FirstOfAppend<T>(ps: seq<Pushed<T>>, p: Pushed<T>, routingKey: string, key: string)
    ensures var n, n' := FirstOf(ps, routingKey, key), FirstOf(ps + [p], routingKey, key);
            n' == if n < |ps| || (p.routingKey == routingKey && Key(p.message) == key) then n else |ps| + 1
  {
    var n, n' := FirstOf(ps, routingKey, key), FirstOf(ps + [p], routingKey, key);
    assert forall l :: 0 <= l < |ps| ==> (ps + [p])[l] == ps[l];
    assert (ps + [p])[|ps|] == p;
    if n < |ps| { assert n' <= n by { assert (ps + [p])[n] == ps[n]; } }
  }

  lemma FirstToAppend<T>(ps: seq<Pushed<T>>, p: Pushed<T>, routingKey: string)
    ensures var n, n' := FirstTo(ps, routingKey), FirstTo(ps + [p], routingKey);
            n' == if n < |ps| || p.routingKey == routingKey then n else |ps| + 1
  {
    var n, n' := FirstTo(ps, routingKey), FirstTo(ps + [p], routingKey);
    assert forall l :: 0 <= l < |ps| ==> (ps + [p])[l] == ps[l];
    assert (ps + [p])[|ps|] == p;
    if n < |ps| { assert n' <= n by { assert (ps + [p])[n] == ps[n]; } }
  }

  /** One push more moves none of the first pushes there are. */
  lemma SameFirsts<T>(es: seq<Entry<T>>, routingKey: string, ps: seq<Pushed<T>>, p: Pushed<T>)
    requires InKeyOrder(es, routingKey, ps)
    ensures InKeyOrder(es, routingKey, ps + [p])
    ensures forall j :: 0 <= j < |es| ==> FirstOf(ps + [p], routingKey, es[j].key) < |ps|
  {
    forall e | e in es ensures FirstOf(ps + [p], routingKey, e.key) == FirstOf(ps, routingKey, e.key) && KeepsFirst(e, routingKey, ps + [p]) {
      assert KeepsFirst(e, routingKey, ps);
      FirstOfAppend(ps, p, routingKey, e.key);
    }
    forall j | 0 <= j < |es| ensures FirstOf(ps + [p], routingKey, es[j].key) < |ps| {
      assert es[j] in es && KeepsFirst(es[j], routingKey, ps);
    }
  }

  lemma OneMoreInOrder<T>(es: seq<Entry<T>>, e: Entry<T>, routingKey: string, ps: seq<Pushed<T>>)
    requires InKeyOrder(es, routingKey, ps) && KeepsFirst(e, routingKey, ps)
    requires forall j :: 0 <= j < |es| ==> FirstOf(ps, routingKey, es[j].key) < FirstOf(ps, routingKey, e.key)
    ensures InKeyOrder(es + [e], routingKey, ps)
  {
  }

  /** Entries that hold the same keys hold those of the pushes. */
  lemma SameKeys<T>(es: seq<Entry<T>>, es': seq<Entry<T>>, routingKey: string, ps: seq<Pushed<T>>, p: Pushed<T>)
    requires HaveKeys(es, routingKey, ps) && |es| <= |es'| && forall j :: 0 <= j < |es| ==> es'[j].key == es[j].key
    requires p.routingKey == routingKey ==> exists j :: 0 <= j < |es'| && es'[j].key == Key(p.message)
    ensures HaveKeys(es', routingKey, ps + [p])
  {
    forall l | 0 <= l < |ps| + 1 && (ps + [p])[l].routingKey == routingKey
      ensures exists j :: 0 <= j < |es'| && es'[j].key == Key((ps + [p])[l].message)
    {
      if l < |ps| {
        var j :| 0 <= j < |es| && es[j].key == Key(ps[l].message);
        assert es'[j].key == es[j].key;
      }
    }
  }

  /** A push for another routing key leaves the entries of this one as they are. */
  lemma OtherEntries<T>(es: seq<Entry<T>>, routingKey: string, ps: seq<Pushed<T>>, p: Pushed<T>)
    requires EntriesAsPushed(es, routingKey, ps) && p.routingKey != routingKey
    ensures EntriesAsPushed(es, routingKey, ps + [p])
  {
    SameFirsts(es, routingKey, ps, p);
    SameKeys(es, es, routingKey, ps, p);
  }

  lemma NewEntry<T>(es: seq<Entry<T>>, ps: seq<Pushed<T>>, p: Pushed<T>)
    requires EntriesAsPushed(es, p.routingKey, ps) && EntryAt(es, Key(p.message)) == |es|
    ensures EntriesAsPushed(es + [Entry(Key(p.message), p.message)], p.routingKey, ps + [p])
  {
    var e := Entry(Key(p.message), p.message);
    var es' := es + [e];
    NewKeeps(es, ps, p);
    SameFirsts(es, p.routingKey, ps, p);
    OneMoreInOrder(es, e, p.routingKey, ps + [p]);
    assert es'[|es|] == e;
    SameKeys(es, es', p.routingKey, ps, p);
  }

  lemma NewKeeps<T>(es: seq<Entry<T>>, ps: seq<Pushed<T>>, p: Pushed<T>)
    requires HaveKeys(es, p.routingKey, ps) && EntryAt(es, Key(p.message)) == |es|
    ensures FirstOf(ps + [p], p.routingKey, Key(p.message)) == |ps|
    ensures KeepsFirst(Entry(Key(p.message), p.message), p.routingKey, ps + [p])
  {
    FirstOfAppend(ps, p, p.routingKey, Key(p.message));
    assert (ps + [p])[|ps|] == p;
  }

  lemma MergedEntry<T>(es: seq<Entry<T>>, ps: seq<Pushed<T>>, p: Pushed<T>, j: nat, m: Message<T>)
    requires EntriesAsPushed(es, p.routingKey, ps) && j < |es| && es[j].key == Key(p.message)
    requires Merge(es[j].message, p.message) == Success(m)
    ensures EntriesAsPushed(es[j := es[j].(message := m)], p.routingKey, ps + [p])
  {
    var es' := es[j := es[j].(message := m)];
    SameFirsts(es, p.routingKey, ps, p);
    assert es[j] in es && KeepsFirst(es[j], p.routingKey, ps + [p]);
    assert KeepsFirst(es'[j], p.routingKey, ps + [p]);
    assert es'[j].key == Key(p.message);
    SameKeys(es, es', p.routingKey, ps, p);
  }

  lemma BucketAsPushed<T>(b: Buffer<T>, ps: seq<Pushed<T>>, p: Pushed<T>, b': Buffer<T>, k: nat)
    requires AsPushed(b, ps) && Push(b, p) == Success(b') && k < |b'|
    ensures EntriesAsPushed(b'[k].entries, b'[k].routingKey, ps + [p])
  {
    var i := BucketAt(b, p.routingKey);
    if k == |b| {
      assert EntriesAsPushed<T>([], p.routingKey, ps);
      NewEntry([], ps, p);
      assert [] + [Entry(Key(p.message), p.message)] == [Entry(Key(p.message), p.message)];
    } else if k != i {
      OtherEntries(b[k].entries, b[k].routingKey, ps, p);
    } else {
      EntriesPushed(b[i].entries, ps, p);
    }
  }

  lemma EntriesPushed<T>(es: seq<Entry<T>>, ps: seq<Pushed<T>>, p: Pushed<T>)
    requires EntriesAsPushed(es, p.routingKey, ps) && PushEntries(es, p.message).Success?
    ensures EntriesAsPushed(PushEntries(es, p.message).value, p.routingKey, ps + [p])
  {
    var j := EntryAt(es, Key(p.message));
    if j == |es| { NewEntry(es, ps, p); } else { MergedEntry(es, ps, p, j, Merge(es[j].message, p.message).value); }
  }

  /** A push adds its routing key at the end, if it is not there, and changes none. */
  ghost predicate Routed<T>(b: Buffer<T>, routingKey: string, b': Buffer<T>) {
    && |b'| == (if BucketAt(b, routingKey) == |b| then |b| + 1 else |b|)
    && forall i :: 0 <= i < |b'| ==> b'[i].routingKey == if i < |b| then b[i].routingKey else routingKey
  }

  lemma PushRoutes<T>(b: Buffer<T>, p: Pushed<T>)
    requires Push(b, p).Success?
    ensures Routed(b, p.routingKey, Push(b, p).value)
  {
  }

  lemma RoutedInOrder<T>(b: Buffer<T>, b': Buffer<T>, ps: seq<Pushed<T>>, p: Pushed<T>)
    requires InRoutingOrder(b, ps) && Routed(b, p.routingKey, b')
    ensures InRoutingOrder(b', ps + [p])
  {
    forall i | 0 <= i < |b'| ensures FirstTo(ps + [p], b'[i].routingKey) == if i < |b| then FirstTo(ps, b[i].routingKey) else |ps| {
      FirstToAppend(ps, p, b'[i].routingKey);
    }
    forall l | 0 <= l < |ps| + 1 ensures exists i :: 0 <= i < |b'| && b'[i].routingKey == (ps + [p])[l].routingKey {
      if l < |ps| {
        var i :| 0 <= i < |b| && b[i].routingKey == ps[l].routingKey;
        assert b'[i].routingKey == b[i].routingKey;
      } else {
        assert b'[BucketAt(b, p.routingKey)].routingKey == p.routingKey;
      }
    }
  }

  lemma PushedAsPushed<T>(b: Buffer<T>, ps: seq<Pushed<T>>, p: Pushed<T>, b': Buffer<T>)
    requires AsPushed(b, ps) && Push(b, p) == Success(b')
    ensures AsPushed(b', ps + [p])
  {
    PushRoutes(b, p);
    RoutedInOrder(b, b', ps, p);
    forall k | 0 <= k < |b'| ensures EntriesAsPushed(b'[k].entries, b'[k].routingKey, ps + [p]) { BucketAsPushed(b, ps, p, b', k); }
  }

  /** Over all pushes that are not refused: the buffer is in the order in which routing keys, and for
      each of them traces and functions, were first pushed; and a message that others were merged
      into keeps the schedule, the attempts and the delay of the first. */
  lemma {:induction false} BufferAsPushed<T>(ps: seq<Pushed<T>>)
    ensures var (b, taken) := PushEach([], ps); Orderly(b) && AsPushed(b, taken)
    decreases |ps|
  {
    if ps != [] {
      var front, last := ps[..|ps| - 1], ps[|ps| - 1];
      BufferAsPushed(front);
      var (b, taken) := PushEach([], front);
      if Push(b, last).Success? {
        PushKeepsOrderly(b, last);
        PushedAsPushed(b, taken, last, Push(b, last).value);
      }
    }
  }

  // ---------- draining ----------

  /** The messages in the order in which a drain sends them. */
  function Flat<T>(b: Buffer<T>): seq<Pushed<T>> {
    if b == [] then [] else FlatBucket(b[0], 0) + Flat(b[1..])
  }

  /** The messages of one bucket from position j on. */
  function FlatBucket<T>(bucket: Bucket<T>, j: nat): (ps: seq<Pushed<T>>)
    requires j <= |bucket.entries|
    ensures |ps| == |bucket.entries| - j
  {
    seq(|bucket.entries| - j, k requires 0 <= k < |bucket.entries| - j => Pushed(bucket.routingKey, bucket.entries[j + k].message))
  }

  /** Where a drain may raise: connecting, before the i-th send, after it but before its message
      is popped, or closing the connection when all is sent. */
  datatype DrainFault = NoFault | AtConnect | BeforeSend(at: nat) | AfterSend(at: nat) | AtClose

  function Min(a: nat, b: nat): nat { if a < b then a else b }

  /** How many of n messages are sent, and how many popped, under a fault. */
  function SentUnder(f: DrainFault, n: nat): nat {
    match f
    case AtConnect => 0
    case BeforeSend(i) => Min(i, n)
    case AfterSend(i) => Min(i + 1, n)
    case _ => n
  }

  function PoppedUnder(f: DrainFault, n: nat): nat {
    match f
    case AtConnect => 0
    case BeforeSend(i) => Min(i, n)
    case AfterSend(i) => Min(i, n)
    case _ => n
  }

  /** All n messages are sent and popped, so that the buffer is reset. */
  predicate Completes(f: DrainFault, n: nat) {
    match f
    case AtConnect => false
    case BeforeSend(i) => i >= n
    case AfterSend(i) => i >= n
    case _ => true
  }

  /** The buffer without its first n messages; emptied buckets stay. */
  function Drop<T>(b: Buffer<T>, n: nat): Buffer<T> {
    if b == [] then []
    else if n <= |b[0].entries| then [b[0].(entries := b[0].entries[n..])] + b[1..]
    else [b[0].(entries := [])] + Drop(b[1..], n - |b[0].entries|)
  }

  lemma {:induction false} DropFlat<T>(b: Buffer<T>, n: nat)
    requires n <= |Flat(b)|
    ensures Flat(Drop(b, n)) == Flat(b)[n..]
  {
    if b != [] {
      var first := FlatBucket(b[0], 0);
      if n <= |b[0].entries| {
        var kept := b[0].(entries := b[0].entries[n..]);
        assert Drop(b, n)[1..] == b[1..];
        assert FlatBucket(kept, 0) == first[n..];
      } else {
        DropFlat(b[1..], n - |b[0].entries|);
        assert Drop(b, n)[1..] == Drop(b[1..], n - |b[0].entries|);
        assert FlatBucket(b[0].(entries := []), 0) == [];
        assert Flat(b)[n..] == Flat(b[1..])[n - |b[0].entries|..];
      }
    }
  }

  /** What a drain has sent and what it leaves: nothing sent if it cannot connect; everything if it
      raises nowhere or only in closing; up to the message before which it raises; and that message
      too, which yet stays, if it raises after sending it. */
  ghost predicate DrainedAs<T>(before: Buffer<T>, wire: seq<Pushed<T>>, f: DrainFault, after: Buffer<T>, wire': seq<Pushed<T>>) {
    var flat := Flat(before);
    match f
    case NoFault => wire' == wire + flat && after == []
    case AtClose => wire' == wire + flat && after == []
    case AtConnect => wire' == wire && after == before
    case BeforeSend(i) =>
      if i < |flat| then wire' == wire + flat[..i] && Flat(after) == flat[i..] else wire' == wire + flat && after == []
    case AfterSend(i) =>
      if i < |flat| then wire' == wire + flat[..i + 1] && Flat(after) == flat[i..] else wire' == wire + flat && after == []
  }

  lemma FaultMeans<T>(b: Buffer<T>, wire: seq<Pushed<T>>, f: DrainFault)
    ensures var n := |Flat(b)|;
            DrainedAs(b, wire, f, if Completes(f, n) then [] else Drop(b, PoppedUnder(f, n)), wire + Flat(b)[..SentUnder(f, n)])
  {
    var flat := Flat(b);
    if f.AtConnect? {
      DropNone(b);
      assert wire + flat[..0] == wire;
    } else if Completes(f, |flat|) {
      assert flat[..|flat|] == flat;
    } else {
      DropFlat(b, f.at);
    }
  }

  lemma {:induction false} FlatConcat<T>(a: Buffer<T>, b: Buffer<T>)
    ensures Flat(a + b) == Flat(a) + Flat(b)
  {
    if a == [] { assert a + b == b; }
    else { assert (a + b)[1..] == a[1..] + b; FlatConcat(a[1..], b); }
  }

  /** The buffer in the middle of a drain: the buckets before i are emptied, and bucket i has
      lost its first j entries. */
  function Partly<T>(b: Buffer<T>, i: nat, j: nat): (p: Buffer<T>)
    requires i < |b| && j <= |b[i].entries|
    ensures |p| == |b|
  {
    Emptied(b[..i]) + [b[i].(entries := b[i].entries[j..])] + b[i + 1..]
  }

  function Emptied<T>(b: Buffer<T>): (e: Buffer<T>)
    ensures |e| == |b|
  {
    seq(|b|, k requires 0 <= k < |b| => b[k].(entries := []))
  }

  lemma {:induction false} PartlyIsDrop<T>(b: Buffer<T>, i: nat, j: nat)
    requires i < |b| && j <= |b[i].entries|
    ensures Partly(b, i, j) == Drop(b, |Flat(b[..i])| + j)
    decreases i
  {
    if i > 0 {
      var n, m := |Flat(b[..i])| + j, |Flat(b[1..][..i - 1])| + j;
      assert b[..i] == [b[0]] + b[1..][..i - 1];
      FlatOne(b[0]);
      FlatConcat([b[0]], b[1..][..i - 1]);
      assert n == |b[0].entries| + m;
      if m == 0 {
        NoneFlat(b[1..][..i - 1]);
        assert forall k :: 1 <= k < i ==> b[k] == b[1..][..i - 1][k - 1];
        PartlyNone(b, i);
      } else {
        PartlyIsDrop(b[1..], i - 1, j);
        PartlyTail(b, i, j);
      }
    }
  }

  lemma PartlyTail<T>(b: Buffer<T>, i: nat, j: nat)
    requires 0 < i < |b| && j <= |b[i].entries|
    ensures Partly(b, i, j) == [b[0].(entries := [])] + Partly(b[1..], i - 1, j)
  {
  }

  lemma PartlyNone<T>(b: Buffer<T>, i: nat)
    requires 0 < i < |b| && forall k :: 1 <= k < i ==> b[k].entries == []
    ensures Partly(b, i, 0) == Drop(b, |b[0].entries|)
  {
    assert b[0].entries[|b[0].entries|..] == [] && b[i].entries[0..] == b[i].entries;
  }

  lemma {:induction false} NoneFlat<T>(b: Buffer<T>)
    requires |Flat(b)| == 0
    ensures forall k :: 0 <= k < |b| ==> b[k].entries == []
  {
    if b != [] { NoneFlat(b[1..]); }
  }

  // ---------- repeated drains ----------

  /** What a series of drains sends, and what it leaves to send. */
  function DrainAll<T>(flat: seq<Pushed<T>>, faults: seq<DrainFault>): (seq<Pushed<T>>, seq<Pushed<T>>) {
    if faults == [] then ([], flat)
    else
      var f, n := faults[0], |flat|;
      var (sent, left) := DrainAll(flat[PoppedUnder(f, n)..], faults[1..]);
      (flat[..SentUnder(f, n)] + sent, left)
  }

  /** After k of the drains, `sent` was sent and `now` is left. */
  ghost predicate DrainedSoFar<T>(flat: seq<Pushed<T>>, faults: seq<DrainFault>, k: nat, sent: seq<Pushed<T>>, now: seq<Pushed<T>>)
    requires k <= |faults|
  {
    DrainAll(flat, faults).0 == sent + DrainAll(now, faults[k..]).0 && DrainAll(flat, faults).1 == DrainAll(now, faults[k..]).1
  }

  lemma DrainOnce<T>(flat: seq<Pushed<T>>, faults: seq<DrainFault>, k: nat, sent: seq<Pushed<T>>, now: seq<Pushed<T>>)
    requires k < |faults| && DrainedSoFar(flat, faults, k, sent, now)
    ensures DrainedSoFar(flat, faults, k + 1, sent + now[..SentUnder(faults[k], |now|)], now[PoppedUnder(faults[k], |now|)..])
  {
    assert faults[k..][1..] == faults[k + 1..] && faults[k..][0] == faults[k];
  }

  lemma DrainedNone<T>(flat: seq<Pushed<T>>, faults: seq<DrainFault>)
    ensures DrainedSoFar(flat, faults, 0, [], flat)
  {
    assert faults[0..] == faults;
  }

  lemma DrainedAll<T>(flat: seq<Pushed<T>>, faults: seq<DrainFault>, sent: seq<Pushed<T>>, now: seq<Pushed<T>>)
    requires DrainedSoFar(flat, faults, |faults|, sent, now)
    ensures DrainAll(flat, faults) == (sent, now)
  {
    assert faults[|faults|..] == [] && sent + [] == sent;
  }

  /** Each message in turn, as many times as counts say. */
  function Repeated<T>(flat: seq<T>, counts: seq<nat>): seq<T>
    requires |counts| == |flat|
  {
    if flat == [] then [] else seq(counts[0], _ => flat[0]) + Repeated(flat[1..], counts[1..])
  }

  function Sum(counts: seq<nat>): nat {
    if counts == [] then 0 else counts[0] + Sum(counts[1..])
  }

  /** The drains of the series that raise between a send and its pop. */
  function HalfDone(n: nat, faults: seq<DrainFault>): nat {
    if faults == [] then 0
    else (if faults[0].AfterSend? && faults[0].at < n then 1 else 0)
         + HalfDone(n - PoppedUnder(faults[0], n), faults[1..])
  }

  lemma {:induction false} RepeatedPrefix<T>(flat: seq<T>, ones: nat, counts: seq<nat>)
    requires ones <= |flat| && |counts| == |flat| - ones
    ensures |seq(ones, _ => 1) + counts| == |flat|
    ensures Repeated(flat, seq(ones, _ => 1) + counts) == flat[..ones] + Repeated(flat[ones..], counts)
    ensures Sum(seq(ones, _ => 1) + counts) == ones + Sum(counts)
    decreases ones
  {
    var all := seq(ones, _ => 1) + counts;
    if ones == 0 {
      assert all == counts && flat[0..] == flat;
    } else {
      RepeatedPrefix(flat[1..], ones - 1, counts);
      assert all[1..] == seq(ones - 1, _ => 1) + counts;
      assert flat[1..][ones - 1..] == flat[ones..];
      assert seq(1, _ => flat[0]) == [flat[0]];
    }
  }

  lemma BumpFirst<T>(flat: seq<T>, counts: seq<nat>)
    requires flat != [] && |counts| == |flat|
    ensures Repeated(flat, [counts[0] + 1] + counts[1..]) == [flat[0]] + Repeated(flat, counts)
    ensures Sum([counts[0] + 1] + counts[1..]) == Sum(counts) + 1
  {
    assert seq(counts[0] + 1, _ => flat[0]) == [flat[0]] + seq(counts[0], _ => flat[0]);
  }

  /** Drains repeated until one completes send the whole buffer in order, each message at least
      once, and one time more only for a drain that raised between its send and its pop. */
  lemma {:induction false} DrainsSendAll<T>(flat: seq<Pushed<T>>, faults: seq<DrainFault>) returns (counts: seq<nat>)
    requires DrainAll(flat, faults).1 == []
    ensures |counts| == |flat| && (forall i :: 0 <= i < |counts| ==> counts[i] >= 1)
    ensures DrainAll(flat, faults).0 == Repeated(flat, counts)
    ensures Sum(counts) == |flat| + HalfDone(|flat|, faults)
    decreases |faults|
  {
    if faults == [] { return []; }
    var later := DrainsSendAll(flat[PoppedUnder(faults[0], |flat|)..], faults[1..]);
    counts := CountDrain(flat, faults[0], later);
  }

  /** The messages that a drain pops are sent once more than the later drains send them, and so is the
      one that it sends without popping it. */
  lemma CountDrain<T>(flat: seq<T>, f: DrainFault, later: seq<nat>) returns (counts: seq<nat>)
    requires |later| == |flat| - PoppedUnder(f, |flat|) && forall i :: 0 <= i < |later| ==> later[i] >= 1
    ensures |counts| == |flat| && (forall i :: 0 <= i < |counts| ==> counts[i] >= 1)
    ensures Repeated(flat, counts) == flat[..SentUnder(f, |flat|)] + Repeated(flat[PoppedUnder(f, |flat|)..], later)
    ensures Sum(counts) == PoppedUnder(f, |flat|) + Sum(later) + if f.AfterSend? && f.at < |flat| then 1 else 0
  {
    var p, rest := PoppedUnder(f, |flat|), later;
    if SentUnder(f, |flat|) == p + 1 {
      rest := CountAgain(flat, p, later);
    }
    counts := seq(p, _ => 1) + rest;
    RepeatedPrefix(flat, p, rest);
  }

  /** Message p was sent once more than the drains after this one send it. */
  lemma CountAgain<T>(flat: seq<T>, p: nat, rest: seq<nat>) returns (counts: seq<nat>)
    requires p < |flat| && |rest| == |flat| - p
    requires forall i :: 0 <= i < |rest| ==> rest[i] >= 1
    ensures |counts| == |rest| && (forall i :: 0 <= i < |counts| ==> counts[i] >= 1)
    ensures flat[..p] + Repeated(flat[p..], counts) == flat[..p + 1] + Repeated(flat[p..], rest)
    ensures Sum(counts) == Sum(rest) + 1
  {
    counts := [rest[0] + 1] + rest[1..];
    BumpFirst(flat[p..], rest);
    assert flat[..p + 1] == flat[..p] + [flat[p..][0]];
  }

  // ---------- the publisher ----------

  class Publisher<T> {
    var messages: Buffer<T>
    var wire: seq<Pushed<T>> // everything the broker has been handed, in order

    constructor ()
      ensures messages == [] && wire == []
    {
      messages, wire := [], [];
    }

    method CleanMessages()
      modifies this`messages
      ensures messages == []
    {
      messages := [];
    }

    /** Buffers the message, or sends it at once. A refusal raises with nothing changed; the bucket it
        would have left empty exists already. */
    method PushMessage(routingKey: string, message: Message<T>, autoPublish: bool, result: PublishResult) returns (r: Result<(), PushError>)
      modifies this`messages, this`wire
      ensures autoPublish ==>
                && messages == old(messages)
                && wire == old(wire) + (if result == NotSent then [] else [Pushed(routingKey, message)])
                && r == (if result == Sent then Success(()) else Failure(NotPublished))
      ensures !autoPublish ==>
                && wire == old(wire)
                && match Push(old(messages), Pushed(routingKey, message))
                   case Success(b) => r == Success(()) && messages == b
                   case Failure(x) => r == Failure(NotMerged(x)) && messages == old(messages)
    {
      if autoPublish {
        r := PublishRawMessage(routingKey, message, result);
      } else {
        r := BufferMessage(routingKey, message);
      }
    }

    method PublishRawMessage(routingKey: string, message: Message<T>, result: PublishResult) returns (r: Result<(), PushError>)
      modifies this`wire
      ensures wire == old(wire) + (if result == NotSent then [] else [Pushed(routingKey, message)])
      ensures r == (if result == Sent then Success(()) else Failure(NotPublished))
    {
      if result != NotSent {
        wire := wire + [Pushed(routingKey, message)];
      }
      r := if result == Sent then Success(()) else Failure(NotPublished);
    }

    method BufferMessage(routingKey: string, message: Message<T>) returns (r: Result<(), PushError>)
      modifies this`messages
      ensures match Push(old(messages), Pushed(routingKey, message))
              case Success(b) => r == Success(()) && messages == b
              case Failure(x) => r == Failure(NotMerged(x)) && messages == old(messages)
    {
      var i := BucketAt(messages, routingKey);
      if i == |messages| {
        messages := messages + [Bucket(routingKey, [])];
      }
      var key := Key(message);
      var j := EntryAt(messages[i].entries, key);
      if j == |messages[i].entries| {
        messages := messages[i := messages[i].(entries := messages[i].entries + [Entry(key, message)])];
        assert i == |old(messages)| ==> messages[i].entries == [Entry(key, message)];
        assert i == |old(messages)| ==> messages == old(messages) + [Bucket(routingKey, [Entry(key, message)])];
        r := Success(());
      } else {
        var merged := Merge(messages[i].entries[j].message, message);
        match merged {
          case Failure(x) =>
            r := Failure(NotMerged(x));
          case Success(m) =>
            messages := messages[i := messages[i].(entries := messages[i].entries[j := messages[i].entries[j].(message := m)])];
            r := Success(());
        }
      }
    }

    /** Sends and pops one message at a time; whatever raises is swallowed. */
    method PublishMessages(fault: DrainFault)
      modifies this`messages, this`wire
      ensures var flat := Flat(old(messages));
              && wire == old(wire) + flat[..SentUnder(fault, |flat|)]
              && messages == if Completes(fault, |flat|) then [] else Drop(old(messages), PoppedUnder(fault, |flat|))
      ensures DrainedAs(old(messages), old(wire), fault, messages, wire)
    {
      DropNone(messages);
      FaultMeans(messages, wire, fault);
      if fault.AtConnect? {
        return;
      }
      var copy := messages;
      var n := 0;
      for i := 0 to |copy|
        invariant n == |Flat(copy[..i])|
        invariant InProgress(copy, old(wire), n, messages, wire)
        invariant !RaisedBefore(fault, n)
      {
        ghost var start := n;
        BucketIsStretch(copy, i);
        for j := 0 to |copy[i].entries|
          invariant n == start + j
          invariant InProgress(copy, old(wire), n, messages, wire)
          invariant !RaisedBefore(fault, n)
        {
          var raised := PublishOne(copy, i, j, n, fault, old(wire));
          if raised {
            return;
          }
          n := n + 1;
        }
      }
      assert copy[..|copy|] == copy;
      messages := [];
    }

    /** Sends entry j of bucket i and pops it. */
    method PublishOne(copy: Buffer<T>, i: nat, j: nat, n: nat, fault: DrainFault, ghost before: seq<Pushed<T>>) returns (raised: bool)
      requires i < |copy| && j < |copy[i].entries| && n == |Flat(copy[..i])| + j
      requires InProgress(copy, before, n, messages, wire) && !RaisedBefore(fault, n) && !fault.AtConnect?
      modifies this`messages, this`wire
      ensures n < |Flat(copy)|
      ensures raised == (fault == BeforeSend(n) || fault == AfterSend(n))
      ensures !raised ==> InProgress(copy, before, n + 1, messages, wire)
      ensures raised ==> wire == before + Flat(copy)[..SentUnder(fault, |Flat(copy)|)] && messages == Drop(copy, n)
    {
      DrainStep(copy, before, i, j, messages, wire);
      if fault == BeforeSend(n) {
        return true;
      }
      wire := wire + [Pushed(copy[i].routingKey, copy[i].entries[j].message)];
      if fault == AfterSend(n) {
        return true;
      }
      messages := messages[i := messages[i].(entries := messages[i].entries[1..])];
      raised := false;
    }

    /** One drain, told by the flat order alone: it sends a first part of it and leaves a last part. */
    method PublishFlat(fault: DrainFault)
      modifies this`messages, this`wire
      ensures var flat := Flat(old(messages));
              && wire == old(wire) + flat[..SentUnder(fault, |flat|)]
              && Flat(messages) == flat[PoppedUnder(fault, |flat|)..]
    {
      DropFlat(messages, PoppedUnder(fault, |Flat(messages)|));
      PublishMessages(fault);
    }

    /** Drains one after the other, as calls make them. Once nothing is left, everything was sent in
        order, each message at least once, and once more for a drain that raised between sending a
        message and popping it. */
    method PublishRepeatedly(faults: seq<DrainFault>) returns (ghost counts: seq<nat>)
      modifies this`messages, this`wire
      ensures wire == old(wire) + DrainAll(Flat(old(messages)), faults).0
      ensures Flat(messages) == DrainAll(Flat(old(messages)), faults).1
      ensures var flat := Flat(old(messages));
              Flat(messages) == [] ==>
                && |counts| == |flat| && (forall i :: 0 <= i < |counts| ==> counts[i] >= 1)
                && wire == old(wire) + Repeated(flat, counts) && Sum(counts) == |flat| + HalfDone(|flat|, faults)
    {
      ghost var flat, sent := Flat(messages), [];
      DrainedNone(flat, faults);
      for k := 0 to |faults|
        invariant wire == old(wire) + sent && DrainedSoFar(flat, faults, k, sent, Flat(messages))
      {
        ghost var before := Flat(messages);
        DrainOnce(flat, faults, k, sent, before);
        PublishFlat(faults[k]);
        sent := sent + before[..SentUnder(faults[k], |before|)];
      }
      DrainedAll(flat, faults, sent, Flat(messages));
      counts := [];
      if Flat(messages) == [] {
        counts := DrainsSendAll(flat, faults);
      }
    }
  }

  /** n messages of b are sent and popped. */
  ghost predicate InProgress<T>(b: Buffer<T>, before: seq<Pushed<T>>, n: nat, messages: Buffer<T>, wire: seq<Pushed<T>>) {
    n <= |Flat(b)| && messages == Drop(b, n) && wire == before + Flat(b)[..n]
  }

  /** The fault was due before the n-th message. */
  predicate RaisedBefore(f: DrainFault, n: nat) {
    (f.BeforeSend? || f.AfterSend?) && f.at < n
  }

  /** One entry of a drain: it is next in the flat order, and sending and popping it is one
      step further. */
  lemma DrainStep<T>(b: Buffer<T>, before: seq<Pushed<T>>, i: nat, j: nat, messages: Buffer<T>, wire: seq<Pushed<T>>)
    requires i < |b| && j < |b[i].entries|
    requires InProgress(b, before, |Flat(b[..i])| + j, messages, wire)
    ensures |messages| == |b| && messages[i].entries != []
    ensures var n, sent := |Flat(b[..i])| + j, wire + [Pushed(b[i].routingKey, b[i].entries[j].message)];
            && n < |Flat(b)| && sent == before + Flat(b)[..n + 1]
            && InProgress(b, before, n + 1, messages[i := messages[i].(entries := messages[i].entries[1..])], sent)
  {
    var n := |Flat(b[..i])| + j;
    StretchAt(b, i, j);
    TakeNext(before, Flat(b), n);
    assert messages == Partly(b, i, j) by { PartlyIsDrop(b, i, j); }
    PopPartly(b, i, j);
    assert Drop(b, n + 1) == Partly(b, i, j + 1) by { PartlyIsDrop(b, i, j + 1); }
  }

  lemma TakeNext<T>(before: seq<T>, s: seq<T>, n: nat)
    requires n < |s|
    ensures before + s[..n] + [s[n]] == before + s[..n + 1]
  {
  }

  lemma PopPartly<T>(b: Buffer<T>, i: nat, j: nat)
    requires i < |b| && j < |b[i].entries|
    ensures var p := Partly(b, i, j);
            p[i].entries != [] && p[i := p[i].(entries := p[i].entries[1..])] == Partly(b, i, j + 1)
  {
    assert b[i].entries[j..][1..] == b[i].entries[j + 1..];
  }

  lemma StretchAt<T>(b: Buffer<T>, i: nat, j: nat)
    requires i < |b| && j < |b[i].entries|
    ensures var n := |Flat(b[..i])| + j;
            n < |Flat(b)| && Flat(b)[n] == Pushed(b[i].routingKey, b[i].entries[j].message)
  {
    SplitFlat(b, i);
    assert FlatBucket(b[i], 0)[j] == Pushed(b[i].routingKey, b[i].entries[j].message);
  }

  /** The two ends of bucket i: where its stretch begins and where it ends. */
  lemma BucketIsStretch<T>(b: Buffer<T>, i: nat)
    requires i < |b|
    ensures |Flat(b[..i + 1])| == |Flat(b[..i])| + |b[i].entries| <= |Flat(b)|
  {
    SplitFlat(b, i);
  }

  lemma DropNone<T>(b: Buffer<T>)
    ensures Drop(b, 0) == b
  {
    if b != [] { assert b[0].entries[0..] == b[0].entries; }
  }

  lemma FlatSplit<T>(before: Buffer<T>, bucket: Bucket<T>, after: Buffer<T>)
    ensures Flat(before + [bucket]) == Flat(before) + FlatBucket(bucket, 0)
    ensures Flat(before + [bucket] + after) == Flat(before) + FlatBucket(bucket, 0) + Flat(after)
  {
    FlatOne(bucket);
    FlatConcat(before, [bucket]);
    FlatConcat(before + [bucket], after);
  }

  lemma SplitAt<T>(s: seq<T>, i: nat)
    requires i < |s|
    ensures s[..i] + [s[i]] == s[..i + 1] && s[..i] + [s[i]] + s[i + 1..] == s
  {
  }

  /** Bucket i of the buffer, as a stretch of the flat order. */
  lemma SplitFlat<T>(b: Buffer<T>, i: nat)
    requires i < |b|
    ensures Flat(b) == Flat(b[..i]) + FlatBucket(b[i], 0) + Flat(b[i + 1..])
    ensures Flat(b[..i + 1]) == Flat(b[..i]) + FlatBucket(b[i], 0)
  {
    FlatSplit(b[..i], b[i], b[i + 1..]);
    SplitAt(b, i);
  }

  lemma FlatOne<T>(bucket: Bucket<T>)
    ensures Flat([bucket]) == FlatBucket(bucket, 0)
  {
    assert [bucket][1..] == [] && Flat<T>([]) == [];
  }
}
