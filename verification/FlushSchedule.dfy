/** The flush schedule as a value: a priority queue of due entries with lazy deletion, and
    the map that says which entry of each guid is live. */
module FlushSchedule {
  import opened FlushClock

  type Guid = nat

  datatype Entry = Entry(due: Time, guid: Guid, token: nat)

  datatype Command = Schedule(guid: Guid, due: Time) | Cancel(guid: Guid)

  /** `heap` lists the queued entries in the order in which the priority queue yields them. */
  datatype Table = Table(heap: seq<Entry>, tokens: map<Guid, nat>, nextToken: nat)

  const EMPTY: Table := Table([], map[], 1)

  /** The entry `a` leaves the priority queue before `b`. */
  predicate Before(a: Entry, b: Entry)
  {
    a.due < b.due || (a.due == b.due && a.token < b.token)
  }

  function Push(heap: seq<Entry>, e: Entry): (r: seq<Entry>)
    ensures forall x :: x in r <==> x in heap || x == e
  {
    if heap == [] || Before(e, heap[0]) then [e] + heap
    else
      assert heap == [heap[0]] + heap[1..];
      [heap[0]] + Push(heap[1..], e)
  }

  predicate IsLive(t: Table, e: Entry)
  {
    e.guid in t.tokens && t.tokens[e.guid] == e.token
  }

  ghost predicate Sorted(heap: seq<Entry>)
  {
    forall i, j :: 0 <= i < j < |heap| ==> Before(heap[i], heap[j])
  }

  ghost predicate Valid(t: Table)
  {
    && Sorted(t.heap)
    && (forall e, f :: e in t.heap && f in t.heap && e.token == f.token ==> e == f)
    && (forall e :: e in t.heap ==> e.token < t.nextToken)
    && (forall g :: g in t.tokens ==> t.tokens[g] < t.nextToken)
  }

  function Apply(t: Table, c: Command): Table
  {
    match c
    case Schedule(guid, due) =>
      Table(Push(t.heap, Entry(due, guid, t.nextToken)), t.tokens[guid := t.nextToken], t.nextToken + 1)
    case Cancel(guid) =>
      t.(tokens := t.tokens - {guid})
  }

  function ApplyAll(t: Table, cs: seq<Command>): Table
    decreases |cs|
  {
    if cs == [] then t else ApplyAll(Apply(t, cs[0]), cs[1..])
  }

  /** The entries that count: the others are skipped when they are popped. */
  ghost function LiveEntries(t: Table): set<Entry>
  {
    set e | e in t.heap && IsLive(t, e)
  }

  ghost function LiveGuids(t: Table): set<Guid>
  {
    set e | e in LiveEntries(t) :: e.guid
  }

  /** A guid that was popped and has been neither rescheduled nor cancelled since. */
  ghost function InFlight(t: Table): set<Guid>
  {
    t.tokens.Keys - LiveGuids(t)
  }

  /** The schedule stands for the plain map `m` from guid to deadline. */
  ghost predicate Represents(t: Table, m: map<Guid, Time>)
  {
    && m.Keys == LiveGuids(t)
    && forall e :: e in LiveEntries(t) ==> m[e.guid] == e.due
  }

  function PlainApply(m: map<Guid, Time>, c: Command): map<Guid, Time>
  {
    match c
    case Schedule(guid, due) => m[guid := due]
    case Cancel(guid) => m - {guid}
  }

  function PlainApplyAll(m: map<Guid, Time>, cs: seq<Command>): map<Guid, Time>
    decreases |cs|
  {
    if cs == [] then m else PlainApplyAll(PlainApply(m, cs[0]), cs[1..])
  }

  // ----- Invariant and refinement -----

  lemma {:induction false} PushKeepsSorted(heap: seq<Entry>, e: Entry)
    requires Sorted(heap)
    requires forall x :: x in heap ==> x.token != e.token
    ensures Sorted(Push(heap, e))
  {
    if heap != [] && !Before(e, heap[0]) {
      PushKeepsSorted(heap[1..], e);
      var rest := Push(heap[1..], e);
      assert Before(heap[0], e);
      forall j | 0 <= j < |rest| ensures Before(heap[0], rest[j]) {
        assert rest[j] in rest;
      }
    }
  }

  lemma ApplyKeepsValid(t: Table, c: Command)
    requires Valid(t)
    ensures Valid(Apply(t, c))
  {
    if c.Schedule? {
      PushKeepsSorted(t.heap, Entry(c.due, c.guid, t.nextToken));
    }
  }

  /** A guid has at most one live entry, and the plain map is determined by the table. */
  lemma LiveEntriesAreUnique(t: Table, m: map<Guid, Time>, n: map<Guid, Time>)
    requires Valid(t)
    ensures forall e, f :: e in LiveEntries(t) && f in LiveEntries(t) && e.guid == f.guid ==> e == f
    ensures Represents(t, m) && Represents(t, n) ==> m == n
  {
    if Represents(t, m) && Represents(t, n) {
      forall g | g in m ensures m[g] == n[g] {
        var e :| e in LiveEntries(t) && e.guid == g;
      }
    }
  }

  /** Every valid table stands for some plain map. */
  lemma {:induction false} SomeMapRepresents(t: Table, es: set<Entry>) returns (m: map<Guid, Time>)
    requires Valid(t) && es <= LiveEntries(t)
    ensures m.Keys == set e | e in es :: e.guid
    ensures forall e :: e in es ==> m[e.guid] == e.due
    ensures es == LiveEntries(t) ==> Represents(t, m)
  {
    LiveEntriesAreUnique(t, map[], map[]);
    if es == {} {
      m := map[];
    } else {
      var e :| e in es;
      var rest := SomeMapRepresents(t, es - {e});
      m := rest[e.guid := e.due];
    }
  }

  /** What one command does to the live entries: Schedule overwrites, Cancel removes, and no
      other guid is touched. */
  lemma LiveEntriesAfterApply(t: Table, c: Command)
    requires Valid(t)
    ensures Valid(Apply(t, c))
    ensures LiveEntries(Apply(t, c)) ==
            (set e | e in LiveEntries(t) && e.guid != c.guid) +
            (if c.Schedule? then {Entry(c.due, c.guid, t.nextToken)} else {})
  {
    ApplyKeepsValid(t, c);
  }

  lemma ApplyRefinesPlainMap(t: Table, m: map<Guid, Time>, c: Command)
    requires Valid(t) && Represents(t, m)
    ensures Valid(Apply(t, c)) && Represents(Apply(t, c), PlainApply(m, c))
  {
    LiveEntriesAfterApply(t, c);
    var t', m' := Apply(t, c), PlainApply(m, c);
    forall g ensures g in m' <==> g in LiveGuids(t') {
      if g in m' && g != c.guid {
        var e :| e in LiveEntries(t) && e.guid == g;
        assert e in LiveEntries(t');
      }
      if c.Schedule? {
        assert Entry(c.due, c.guid, t.nextToken) in LiveEntries(t');
      }
    }
  }

  lemma {:induction false} ApplyAllKeepsValid(t: Table, cs: seq<Command>)
    requires Valid(t)
    ensures Valid(ApplyAll(t, cs))
    decreases |cs|
  {
    if cs != [] {
      ApplyKeepsValid(t, cs[0]);
      ApplyAllKeepsValid(Apply(t, cs[0]), cs[1..]);
    }
  }

  /** The heap with its token map refines the plain map, for every stream of commands. */
  lemma {:induction false} RefinesPlainMap(t: Table, m: map<Guid, Time>, cs: seq<Command>)
    requires Valid(t) && Represents(t, m)
    ensures Valid(ApplyAll(t, cs))
    ensures Represents(ApplyAll(t, cs), PlainApplyAll(m, cs))
    decreases |cs|
  {
    if cs != [] {
      ApplyRefinesPlainMap(t, m, cs[0]);
      RefinesPlainMap(Apply(t, cs[0]), PlainApply(m, cs[0]), cs[1..]);
    }
  }

  function Pop(t: Table): Table
    requires t.heap != []
  {
    t.(heap := t.heap[1..])
  }

  lemma LiveEntriesAfterPop(t: Table)
    requires Valid(t) && t.heap != []
    ensures Valid(Pop(t))
    ensures LiveEntries(Pop(t)) == LiveEntries(t) - {t.heap[0]}
    ensures forall e :: e in t.heap && e != t.heap[0] ==> Before(t.heap[0], e)
  {
    var top, rest := t.heap[0], t.heap[1..];
    assert t.heap == [top] + rest;
    assert forall j :: 0 <= j < |rest| ==> Before(top, rest[j]);
    assert top !in rest;
  }

  /** Popping a stale entry changes no deadline; popping a live one removes exactly that
      guid, leaves it in flight, and it was the least live entry by (due, token). */
  lemma PopYieldsLeastLive(t: Table, m: map<Guid, Time>)
    requires Valid(t) && t.heap != [] && Represents(t, m)
    ensures Valid(Pop(t))
    ensures !IsLive(t, t.heap[0]) ==> Represents(Pop(t), m)
    ensures IsLive(t, t.heap[0]) ==>
              && var top := t.heap[0];
              && top.guid in m && m[top.guid] == top.due
              && Represents(Pop(t), m - {top.guid})
              && top.guid in InFlight(Pop(t))
              && (forall e :: e in LiveEntries(t) && e != top ==> Before(top, e))
              && (forall g :: g in m ==> top.due <= m[g])
  {
    LiveEntriesAfterPop(t);
    LiveEntriesAreUnique(t, m, m);
    var top := t.heap[0];
    if IsLive(t, top) {
      assert top in LiveEntries(t);
      forall g | g in m ensures top.due <= m[g] && (g != top.guid ==> g in LiveGuids(Pop(t))) {
        OthersStayLive(t, m, g);
      }
    } else {
      assert LiveEntries(Pop(t)) == LiveEntries(t);
    }
  }

  lemma OthersStayLive(t: Table, m: map<Guid, Time>, g: Guid)
    requires Valid(t) && t.heap != [] && Represents(t, m) && g in m
    ensures t.heap[0].due <= m[g] && (g != t.heap[0].guid ==> g in LiveGuids(Pop(t)))
  {
    LiveEntriesAfterPop(t);
    var e :| e in LiveEntries(t) && e.guid == g;
    assert e == t.heap[0] || e in LiveEntries(Pop(t));
  }

  /** Emptying the heap and the map and restarting the tokens at 1 is a valid empty schedule. */
  lemma ClearedIsValid()
    ensures Valid(EMPTY) && Represents(EMPTY, map[]) && InFlight(EMPTY) == {}
  {
  }

  lemma {:induction false} ApplyAllConcat(t: Table, a: seq<Command>, b: seq<Command>)
    ensures ApplyAll(t, a + b) == ApplyAll(ApplyAll(t, a), b)
    decreases |a|
  {
    if a == [] {
      assert a + b == b;
    } else {
      assert (a + b)[1..] == a[1..] + b;
      ApplyAllConcat(Apply(t, a[0]), a[1..], b);
    }
  }
}
