// The snapshot fan-out as a protocol: InMemoryStore.Save (store.go) and
// Server.StreamQuotas (pkg/server/server.go) interleaved step by step. There is
// one writer (the reconciler); snapshots are numbered by the save that made
// them, and 0 is "none yet".
module Streams {
  import opened Prelude

  // The selects Save performs on one channel: send, else drain, then send again.
  datatype Phase = FirstSend | Drain | LastSend

  datatype Writer =
    | Idle
    | Stored                                           // pointer stored, lock not yet taken
    | Picking(todo: set<nat>)                          // lock held, between channels
    | Sending(todo: set<nat>, ch: nat, phase: Phase)   // lock held, at one channel

  datatype Pc =
    | Subscribed
    | SendingInitial
    | Waiting
    | Holding
    | Leaving
    | Gone

  // One stream and its channel, with what has been observed so far: the store
  // at subscription, the initial snapshot read, the last snapshot put into the
  // channel, and what was received from it and sent to the client.
  datatype Stream = Stream(
    pc: Pc, buffer: Option<nat>, closed: bool,
    base: nat, initial: nat, offered: nat, received: seq<nat>, sent: seq<nat>)

  datatype State = State(store: nat, writer: Writer, subscribers: set<nat>, streams: map<nat, Stream>)

  datatype Action =
    | SaveStore | SaveLock | SavePick(id: nat) | SaveSelect | SaveDone
    | Subscribe(id: nat) | Get(id: nat) | SendOk(id: nat) | SendError(id: nat)
    | Receive(id: nat) | Cancel(id: nat) | Unsubscribe(id: nat)

  const Init := State(0, Idle, {}, map[])

  predicate LockFree(s: State) {
    s.writer.Idle? || s.writer.Stored?
  }

  predicate At(s: State, id: nat, pc: Pc) {
    id in s.streams && s.streams[id].pc == pc
  }

  predicate Enabled(s: State, a: Action) {
    match a
    case SaveStore => s.writer.Idle?
    case SaveLock => s.writer.Stored?
    case SavePick(id) => s.writer.Picking? && id in s.writer.todo
    case SaveSelect => s.writer.Sending? && s.writer.ch in s.streams
    case SaveDone => s.writer == Picking({})
    case Subscribe(id) => id !in s.streams && LockFree(s)
    case Get(id) => At(s, id, Subscribed)
    case SendOk(id) => At(s, id, SendingInitial) || At(s, id, Holding)
    case SendError(id) => At(s, id, SendingInitial) || At(s, id, Holding)
    case Receive(id) => At(s, id, Waiting) && (s.streams[id].buffer.Some? || s.streams[id].closed)
    case Cancel(id) => At(s, id, Waiting)
    case Unsubscribe(id) => At(s, id, Leaving) && LockFree(s)
  }

  function Set(s: State, id: nat, st: Stream): State {
    s.(streams := s.streams[id := st])
  }

  function Next(s: State, a: Action): State
    requires Enabled(s, a)
  {
    match a
    case SaveStore => s.(store := s.store + 1, writer := Stored)
    case SaveLock => s.(writer := Picking(s.subscribers))
    case SavePick(id) => s.(writer := Sending(s.writer.todo - {id}, id, FirstSend))
    case SaveSelect => Select(s)
    case SaveDone => s.(writer := Idle)
    case Subscribe(id) =>
      Set(s, id, Stream(Subscribed, None, false, s.store, 0, 0, [], [])).(subscribers := s.subscribers + {id})
    case Get(id) =>
      Set(s, id, s.streams[id].(initial := s.store, pc := if s.store == 0 then Waiting else SendingInitial))
    case SendOk(id) =>
      var st := s.streams[id];
      var v := if st.pc.Holding? && st.received != [] then st.received[|st.received| - 1] else st.initial;
      Set(s, id, st.(pc := Waiting, sent := st.sent + [v]))
    case SendError(id) => Set(s, id, s.streams[id].(pc := Leaving))
    case Receive(id) =>
      var st := s.streams[id];
      if st.buffer.Some? then
        Set(s, id, st.(pc := Holding, buffer := None, received := st.received + [st.buffer.value]))
      else
        Set(s, id, st.(pc := Leaving))
    case Cancel(id) => Set(s, id, s.streams[id].(pc := Leaving))
    case Unsubscribe(id) =>
      Set(s, id, s.streams[id].(pc := Gone, closed := true)).(subscribers := s.subscribers - {id})
  }

  // One select of Save on the current channel.
  function Select(s: State): State
    requires s.writer.Sending? && s.writer.ch in s.streams
  {
    var st := s.streams[s.writer.ch];
    var offer := Set(s, s.writer.ch, st.(buffer := Some(s.store), offered := s.store)).(writer := Picking(s.writer.todo));
    match s.writer.phase
    case FirstSend => if st.buffer.None? then offer else s.(writer := s.writer.(phase := Drain))
    case Drain => Set(s, s.writer.ch, st.(buffer := None)).(writer := s.writer.(phase := LastSend))
    case LastSend => if st.buffer.None? then offer else s.(writer := Picking(s.writer.todo))
  }

  predicate Legal(s: State, run: seq<Action>)
    decreases |run|
  {
    run == [] || (Enabled(s, run[0]) && Legal(Next(s, run[0]), run[1..]))
  }

  function Exec(s: State, run: seq<Action>): State
    requires Legal(s, run)
    decreases |run|
  {
    if run == [] then s else Exec(Next(s, run[0]), run[1..])
  }

  // ---------- The invariant ----------

  // The save in progress has still to reach this stream.
  predicate Pending(s: State, id: nat) {
    match s.writer
    case Idle => false
    case Stored => true
    case Picking(todo) => id in todo
    case Sending(todo, ch, _) => id in todo || id == ch
  }

  predicate Draining(s: State, id: nat) {
    s.writer.Sending? && s.writer.ch == id && s.writer.phase.LastSend?
  }

  function LastOf(xs: seq<nat>): nat {
    if xs == [] then 0 else xs[|xs| - 1]
  }

  predicate Increasing(xs: seq<nat>) {
    forall i, j | 0 <= i < j < |xs| :: xs[i] < xs[j]
  }

  function Opening(st: Stream): seq<nat> {
    if st.initial == 0 then [] else [st.initial]
  }

  // What the channel of an open stream holds and has held.
  predicate ChannelInv(s: State, id: nat, st: Stream) {
    && st.offered <= s.store && st.base <= s.store && st.initial <= s.store
    && (st.buffer.Some? ==> st.buffer.value == st.offered && LastOf(st.received) < st.offered)
    && Increasing(st.received) && LastOf(st.received) <= st.offered
    && (st.buffer.None? && !Draining(s, id) ==> LastOf(st.received) == st.offered)
    && (Draining(s, id) ==> st.buffer.None?)
    && (forall v | v in st.received :: 0 < v)
  }

  // How far behind the store the channel can be.
  predicate FreshInv(s: State, id: nat, st: Stream) {
    if Pending(s, id) then
      st.offered == s.store - 1 || (st.offered == 0 && (st.base == s.store - 1 || st.base == s.store))
    else
      st.offered == s.store || (s.writer.Idle? && st.offered == 0 && st.base == s.store)
  }

  // What has been sent to the client, by program counter.
  predicate SentInv(st: Stream) {
    match st.pc
    case Subscribed => st.initial == 0 && st.received == [] && st.sent == []
    case SendingInitial => st.initial > 0 && st.received == [] && st.sent == []
    case Waiting => st.sent == Opening(st) + st.received
    case Holding => st.received != [] && st.sent == Opening(st) + st.received[..|st.received| - 1]
    case _ => SentPrefix(st)
  }

  // All that was to be sent has been, but for the last snapshot at most.
  predicate SentPrefix(st: Stream) {
    var all := Opening(st) + st.received;
    st.sent <= all && |all| <= |st.sent| + 1
  }

  predicate ReceivedInv(s: State, st: Stream) {
    forall v | v in st.received :: 0 < v <= s.store
  }

  // Channel deliveries start at most one save behind the initial snapshot.
  predicate InitialInv(st: Stream) {
    && (!st.pc.Subscribed? ==> st.base <= st.initial)
    && (st.offered > 0 ==> st.initial <= st.offered + 1)
    && (forall v | v in st.received :: st.initial <= v + 1)
  }

  predicate StreamInv(s: State, id: nat, st: Stream) {
    && (st.closed <==> st.pc.Gone?) && (st.closed <==> id !in s.subscribers)
    && (!st.closed ==> ChannelInv(s, id, st) && FreshInv(s, id, st))
    && Increasing(st.received) && ReceivedInv(s, st) && InitialInv(st) && SentInv(st)
  }

  ghost predicate Inv(s: State) {
    && s.subscribers <= s.streams.Keys
    && (s.writer.Picking? ==> s.writer.todo <= s.subscribers)
    && (s.writer.Sending? ==> s.writer.todo <= s.subscribers && s.writer.ch in s.subscribers && s.writer.ch !in s.writer.todo)
    && (!s.writer.Idle? ==> s.store > 0)
    && forall id | id in s.streams :: StreamInv(s, id, s.streams[id])
  }

  lemma {:induction false} Snoc(xs: seq<nat>, v: nat)
    requires Increasing(xs) && (forall x | x in xs :: 0 < x) && LastOf(xs) < v
    ensures Increasing(xs + [v]) && LastOf(xs + [v]) == v && (forall x | x in xs + [v] :: 0 < x)
  {
    forall i | 0 <= i < |xs| ensures xs[i] < v {
      if i < |xs| - 1 {
        assert xs[i] < xs[|xs| - 1];
      }
    }
  }

  predicate WriterMoves(a: Action) {
    a.SaveStore? || a.SaveLock? || a.SavePick? || a.SaveDone?
  }

  // Steps of the writer between channels leave every stream as it is.
  lemma {:induction false} WriterKeeps(s: State, a: Action, id: nat)
    requires Inv(s) && Enabled(s, a) && WriterMoves(a) && id in s.streams
    ensures Next(s, a).streams == s.streams && StreamInv(Next(s, a), id, s.streams[id])
  {
  }

  lemma {:induction false} SelectKeepsOther(s: State, id: nat)
    requires Inv(s) && Enabled(s, SaveSelect) && id in s.streams && id != s.writer.ch
    ensures id in Select(s).streams && StreamInv(Select(s), id, Select(s).streams[id])
  {
    assert StreamInv(s, id, s.streams[id]);
  }

  // The channel is empty and takes the new snapshot.
  lemma {:induction false} OfferKeeps(s: State)
    requires Inv(s) && Enabled(s, SaveSelect)
    requires !s.writer.phase.Drain? && s.streams[s.writer.ch].buffer.None?
    ensures StreamInv(Select(s), s.writer.ch, Select(s).streams[s.writer.ch])
  {
    assert StreamInv(s, s.writer.ch, s.streams[s.writer.ch]);
  }

  lemma {:induction false} DrainKeeps(s: State)
    requires Inv(s) && Enabled(s, SaveSelect) && s.writer.phase.Drain?
    ensures StreamInv(Select(s), s.writer.ch, Select(s).streams[s.writer.ch])
  {
    assert StreamInv(s, s.writer.ch, s.streams[s.writer.ch]);
  }

  lemma {:induction false} SelectKeepsCurrent(s: State)
    requires Inv(s) && Enabled(s, SaveSelect)
    ensures s.writer.ch in Select(s).streams && StreamInv(Select(s), s.writer.ch, Select(s).streams[s.writer.ch])
  {
    if s.writer.phase.Drain? {
      DrainKeeps(s);
    } else if s.streams[s.writer.ch].buffer.None? {
      OfferKeeps(s);
    } else {
      assert StreamInv(s, s.writer.ch, s.streams[s.writer.ch]);
    }
  }

  predicate ClientMoves(a: Action, id: nat) {
    !WriterMoves(a) && !a.SaveSelect? && a.id == id
  }

  lemma {:induction false} ReceiveKeeps(s: State, id: nat)
    requires Inv(s) && Enabled(s, Receive(id))
    ensures StreamInv(Next(s, Receive(id)), id, Next(s, Receive(id)).streams[id])
  {
    var st := s.streams[id];
    assert StreamInv(s, id, st);
    assert st.buffer.Some?;
    Snoc(st.received, st.buffer.value);
    assert (st.received + [st.buffer.value])[..|st.received|] == st.received;
  }

  // A send changes what was sent and where the stream stands, nothing else.
  lemma {:induction false} SendKeeps(s: State, id: nat)
    requires Inv(s) && Enabled(s, SendOk(id))
    ensures StreamInv(Next(s, SendOk(id)), id, Next(s, SendOk(id)).streams[id])
  {
    var st, st' := s.streams[id], Next(s, SendOk(id)).streams[id];
    assert StreamInv(s, id, st);
    SentAfterSend(st, st'.sent[|st.sent|]);
    assert !st'.closed ==> ChannelInv(s, id, st') && FreshInv(s, id, st');
    assert InitialInv(st');
    hide SentInv, Increasing;
  }

  lemma {:induction false} SentAfterSend(st: Stream, v: nat)
    requires SentInv(st) && InitialInv(st) && (st.pc.Holding? || st.pc.SendingInitial?)
    requires v == if st.pc.Holding? && st.received != [] then st.received[|st.received| - 1] else st.initial
    ensures SentInv(st.(pc := Waiting, sent := st.sent + [v]))
  {
    if st.pc.Holding? {
      assert st.received == st.received[..|st.received| - 1] + [LastOf(st.received)];
    }
  }

  lemma {:induction false} ClientKeeps(s: State, a: Action, id: nat)
    requires Inv(s) && Enabled(s, a) && ClientMoves(a, id) && id in s.streams
    ensures id in Next(s, a).streams && StreamInv(Next(s, a), id, Next(s, a).streams[id])
  {
    assert StreamInv(s, id, s.streams[id]);
    if a.Receive? {
      ReceiveKeeps(s, id);
    } else if a.SendOk? {
      SendKeeps(s, id);
    }
  }

  // A step of one client does not concern another client's stream.
  lemma {:induction false} OthersKept(s: State, a: Action, id: nat)
    requires Inv(s) && Enabled(s, a) && !WriterMoves(a) && !a.SaveSelect? && a.id != id && id in s.streams
    ensures id in Next(s, a).streams && StreamInv(Next(s, a), id, Next(s, a).streams[id])
  {
    assert StreamInv(s, id, s.streams[id]);
  }

  lemma {:induction false} StepKeepsInv(s: State, a: Action)
    requires Inv(s) && Enabled(s, a)
    ensures Inv(Next(s, a))
  {
    var s' := Next(s, a);
    forall id | id in s'.streams ensures StreamInv(s', id, s'.streams[id]) {
      if WriterMoves(a) {
        WriterKeeps(s, a, id);
      } else if a.SaveSelect? {
        if id == s.writer.ch {
          SelectKeepsCurrent(s);
        } else {
          SelectKeepsOther(s, id);
        }
      } else if id in s.streams && a.id == id {
        ClientKeeps(s, a, id);
      } else if id in s.streams {
        OthersKept(s, a, id);
      }
    }
  }

  lemma {:induction false} RunKeepsInv(s: State, run: seq<Action>)
    requires Inv(s) && Legal(s, run)
    ensures Inv(Exec(s, run))
    decreases |run|
  {
    if run != [] {
      StepKeepsInv(s, run[0]);
      RunKeepsInv(Next(s, run[0]), run[1..]);
    }
  }

  // ---------- What the protocol guarantees ----------

  // Reachable states: those of any interleaving from the start.
  ghost predicate Reached(s: State, run: seq<Action>) {
    Legal(Init, run) && s == Exec(Init, run)
  }

  lemma {:induction false} ReachedInv(s: State, run: seq<Action>)
    requires Reached(s, run)
    ensures Inv(s)
  {
    RunKeepsInv(Init, run);
  }

  // Convergence: with no save running, a stream that waits on an empty channel
  // has sent the store's current snapshot last (and nothing before the first save).
  lemma {:induction false} Convergence(s: State, run: seq<Action>, id: nat)
    requires Reached(s, run) && s.writer.Idle? && At(s, id, Waiting) && s.streams[id].buffer.None?
    ensures LastOf(s.streams[id].sent) == s.store
    ensures s.store == 0 <==> s.streams[id].sent == []
  {
    ReachedInv(s, run);
    var st := s.streams[id];
    assert StreamInv(s, id, st);
    if st.received != [] {
      assert LastOf(st.received) in st.received;
      assert LastOf(Opening(st) + st.received) == LastOf(st.received);
    } else {
      assert Opening(st) + st.received == Opening(st);
    }
  }

  // What a stream has sent, at every moment and also after it has left: at most
  // one initial snapshot, then what it received in strict save order, the first
  // of it at most one save older than the initial one. At most the last of all
  // this is unsent, and nothing is while the stream waits.
  lemma {:induction false} DeliveryOrder(s: State, run: seq<Action>, id: nat)
    requires Reached(s, run) && id in s.streams
    ensures SentPrefix(s.streams[id])
    ensures At(s, id, Waiting) ==> s.streams[id].sent == Opening(s.streams[id]) + s.streams[id].received
    ensures Increasing(s.streams[id].received)
    ensures forall v | v in s.streams[id].received :: 0 < v <= s.store && s.streams[id].initial <= v + 1
  {
    ReachedInv(s, run);
    assert StreamInv(s, id, s.streams[id]);
  }

  predicate IsSave(a: Action) {
    WriterMoves(a) || a.SaveSelect?
  }

  // Steps the running save still has to take once it holds the lock.
  function SaveWork(s: State): nat {
    match s.writer
    case Idle => 0
    case Stored => 0
    case Picking(todo) => 4 * |todo| + 1
    case Sending(todo, _, phase) =>
      4 * |todo| + (match phase case FirstSend => 4 case Drain => 3 case LastSend => 2)
  }

  // Save never blocks and never sends on a closed channel: whatever the streams
  // do, a running save has a step it can take, and at a channel that is open.
  lemma {:induction false} SaveCanMove(s: State, run: seq<Action>)
    requires Reached(s, run) && !s.writer.Idle?
    ensures exists a :: IsSave(a) && Enabled(s, a)
    ensures s.writer.Sending? ==> s.writer.ch in s.streams && !s.streams[s.writer.ch].closed
  {
    ReachedInv(s, run);
    match s.writer
    case Stored => assert Enabled(s, SaveLock) && IsSave(SaveLock);
    case Picking(todo) =>
      if todo == {} {
        assert Enabled(s, SaveDone) && IsSave(SaveDone);
      } else {
        var id :| id in todo;
        assert Enabled(s, SavePick(id)) && IsSave(SavePick(id));
      }
    case Sending(_, ch, _) =>
      assert Enabled(s, SaveSelect) && IsSave(SaveSelect);
      assert StreamInv(s, ch, s.streams[ch]);
    case Idle =>
  }

  // Its own steps bring a save to its end and no step of a stream sets it back.
  lemma {:induction false} SaveFinishes(s: State, a: Action)
    requires Enabled(s, a) && (s.writer.Picking? || s.writer.Sending?)
    ensures if IsSave(a) then SaveWork(Next(s, a)) < SaveWork(s) else SaveWork(Next(s, a)) == SaveWork(s)
  {
    if a.SavePick? {
      assert |s.writer.todo - {a.id}| == |s.writer.todo| - 1;
    }
  }

  // Save always delivers: its last send never finds the slot full, and when it
  // is done every open channel has been given the new snapshot.
  lemma {:induction false} SaveDelivers(s: State, run: seq<Action>)
    requires Reached(s, run)
    ensures s.writer.Sending? && s.writer.phase.LastSend? ==>
      s.writer.ch in s.streams && s.streams[s.writer.ch].buffer.None?
    ensures s.writer == Picking({}) ==>
      forall id | id in s.subscribers :: id in s.streams && s.streams[id].offered == s.store
  {
    ReachedInv(s, run);
    if s.writer.Sending? {
      assert StreamInv(s, s.writer.ch, s.streams[s.writer.ch]);
    }
    forall id | id in s.subscribers && s.writer == Picking({}) ensures s.streams[id].offered == s.store {
      assert StreamInv(s, id, s.streams[id]);
    }
  }

  // ---------- A save that is not interrupted ----------

  // Its selects on one channel put the new snapshot there, whatever it held.
  lemma {:induction false} SelectsDeliver(s: State) returns (run: seq<Action>)
    requires s.writer.Sending? && s.writer.phase.FirstSend? && s.writer.ch in s.streams
    ensures Legal(s, run) && forall a | a in run :: IsSave(a)
    ensures
      var st := s.streams[s.writer.ch];
      Exec(s, run) == Set(s, s.writer.ch, st.(buffer := Some(s.store), offered := s.store)).(writer := Picking(s.writer.todo))
  {
    var s1 := Select(s);
    if s.streams[s.writer.ch].buffer.None? {
      run := [SaveSelect];
      assert run[1..] == [];
    } else {
      var s2 := Select(s1);
      var s3 := Select(s2);
      run := [SaveSelect, SaveSelect, SaveSelect];
      assert run[1..] == [SaveSelect, SaveSelect] && run[1..][1..] == [SaveSelect] && [SaveSelect][1..] == [];
      assert Exec(s, run) == Exec(s1, run[1..]) == Exec(s2, [SaveSelect]) == Exec(s3, []) == s3;
      var st := s.streams[s.writer.ch];
      assert s3.streams == s.streams[s.writer.ch := st.(buffer := Some(s.store), offered := s.store)];
    }
  }

  lemma {:induction false} ExecConcat(s: State, a: seq<Action>, b: seq<Action>)
    requires Legal(s, a) && Legal(Exec(s, a), b)
    ensures Legal(s, a + b) && Exec(s, a + b) == Exec(Exec(s, a), b)
    decreases |a|
  {
    if a == [] {
      assert a + b == b;
    } else {
      assert (a + b)[1..] == a[1..] + b;
      ExecConcat(Next(s, a[0]), a[1..], b);
    }
  }

  // The save has reached exactly the channels in done.
  ghost predicate Delivered(s: State, s': State, done: set<nat>) {
    && s'.store == s.store && s'.subscribers == s.subscribers && s'.streams.Keys == s.streams.Keys
    && forall id | id in s.streams ::
         s'.streams[id] == if id in done then s.streams[id].(buffer := Some(s.store), offered := s.store) else s.streams[id]
  }

  lemma {:induction false} LoopDelivers(s: State) returns (run: seq<Action>)
    requires s.writer.Picking? && s.writer.todo <= s.streams.Keys
    ensures Legal(s, run) && forall a | a in run :: IsSave(a)
    ensures Exec(s, run).writer.Idle? && Delivered(s, Exec(s, run), s.writer.todo)
    decreases |s.writer.todo|
  {
    if s.writer.todo == {} {
      run := [SaveDone];
      assert run[1..] == [];
    } else {
      var id :| id in s.writer.todo;
      var picked := Next(s, SavePick(id));
      var selects := SelectsDeliver(picked);
      var sent := Exec(picked, selects);
      var rest := LoopDelivers(sent);
      ExecConcat(picked, selects, rest);
      run := [SavePick(id)] + (selects + rest);
      assert run[1..] == selects + rest;
      assert forall a | a in run :: a == SavePick(id) || a in selects || a in rest;
    }
  }

  // A save that runs through is InMemoryStore.Save: every subscribed channel
  // ends up holding the new snapshot, and nothing else changes.
  lemma {:induction false} UninterruptedSave(s: State) returns (run: seq<Action>)
    requires Inv(s) && s.writer.Idle?
    ensures Legal(s, run) && forall a | a in run :: IsSave(a)
    ensures
      var stored := Next(s, SaveStore);
      Exec(s, run).writer.Idle? && Delivered(stored, Exec(s, run), s.subscribers)
  {
    var stored := Next(s, SaveStore);
    var locked := Next(stored, SaveLock);
    var rest := LoopDelivers(locked);
    run := [SaveStore, SaveLock] + rest;
    assert run[1..] == [SaveLock] + rest && run[1..][1..] == rest;
    assert Exec(s, run) == Exec(stored, run[1..]) == Exec(locked, rest);
    assert forall a | a in run :: a == SaveStore || a == SaveLock || a in rest;
  }

  // ---------- Why there has to be one writer ----------

  // The part of a save under the lock, as one step: every subscribed channel
  // is given snapshot v.
  function OfferedTo(s: State, v: nat): State {
    s.(streams := map id | id in s.streams ::
         if id in s.subscribers then s.streams[id].(buffer := Some(v), offered := v) else s.streams[id])
  }

  lemma {:induction false} OfferIsLockedPart(s: State) returns (run: seq<Action>)
    requires Inv(s) && s.writer.Stored?
    ensures Legal(s, run) && forall a | a in run :: IsSave(a)
    ensures Exec(s, run) == OfferedTo(s, s.store).(writer := Idle)
  {
    var locked := Next(s, SaveLock);
    var rest := LoopDelivers(locked);
    run := [SaveLock] + rest;
    assert run[1..] == rest;
    assert Exec(s, run) == Exec(locked, rest);
    assert forall a | a in run :: a == SaveLock || a in rest;
    assert Exec(s, run).streams == OfferedTo(s, s.store).streams;
  }

  // Saves of several writers: each stores the pointer before it takes the lock
  // and offers its snapshot under it, so that these two steps interleave.
  datatype SaverStep = StorePointer(v: nat) | Offer(v: nat)

  function Race(s: State, steps: seq<SaverStep>): State {
    if steps == [] then s
    else
      var before := Race(s, steps[..|steps| - 1]);
      match steps[|steps| - 1]
      case StorePointer(v) => before.(store := v)
      case Offer(v) => OfferedTo(before, v)
  }

  predicate StoredBefore(steps: seq<SaverStep>, i: nat)
    requires i < |steps|
  {
    exists j :: 0 <= j < i && steps[j] == StorePointer(steps[i].v)
  }

  predicate OfferedAfter(steps: seq<SaverStep>, i: nat)
    requires i < |steps|
  {
    exists j :: i < j < |steps| && steps[j] == Offer(steps[i].v)
  }

  // Every save does both steps, the store first, and has its own snapshot.
  ghost predicate WholeSaves(steps: seq<SaverStep>) {
    && (forall i: nat | i < |steps| :: if steps[i].Offer? then StoredBefore(steps, i) else OfferedAfter(steps, i))
    && (forall i, j | 0 <= i < j < |steps| :: steps[i] != steps[j])
  }

  function LastStored(steps: seq<SaverStep>): Option<nat> {
    if steps == [] then None
    else if steps[|steps| - 1].StorePointer? then Some(steps[|steps| - 1].v)
    else LastStored(steps[..|steps| - 1])
  }

  function LastOffered(steps: seq<SaverStep>): Option<nat> {
    if steps == [] then None
    else if steps[|steps| - 1].Offer? then Some(steps[|steps| - 1].v)
    else LastOffered(steps[..|steps| - 1])
  }

  lemma {:induction false} RaceOutcome(s: State, steps: seq<SaverStep>, id: nat)
    requires id in s.subscribers && id in s.streams
    ensures
      var s' := Race(s, steps);
      && s'.subscribers == s.subscribers && id in s'.streams
      && s'.store == (if LastStored(steps).Some? then LastStored(steps).value else s.store)
      && s'.streams[id].buffer == (if LastOffered(steps).Some? then LastOffered(steps) else s.streams[id].buffer)
  {
    if steps != [] {
      RaceOutcome(s, steps[..|steps| - 1], id);
    }
  }

  lemma {:induction false} SomeStored(steps: seq<SaverStep>, i: nat)
    requires i < |steps| && steps[i].StorePointer?
    ensures LastStored(steps).Some?
  {
    if i < |steps| - 1 {
      SomeStored(steps[..|steps| - 1], i);
    }
  }

  // After any interleaving of whole saves, a channel nobody has read holds the
  // stored snapshot exactly when the save that stored last also offered last.
  lemma {:induction false} RaceAgreesIff(s: State, steps: seq<SaverStep>, id: nat)
    requires id in s.subscribers && id in s.streams && WholeSaves(steps) && steps != []
    ensures id in Race(s, steps).streams
    ensures Race(s, steps).streams[id].buffer == Some(Race(s, steps).store) <==> LastStored(steps) == LastOffered(steps)
  {
    RaceOutcome(s, steps, id);
    var n := |steps| - 1;
    assert !OfferedAfter(steps, n);
    assert StoredBefore(steps, n);
    var j :| 0 <= j < n && steps[j] == StorePointer(steps[n].v);
    SomeStored(steps, j);
    hide Race, WholeSaves;
  }

  const TWO_SAVES: seq<SaverStep> := [StorePointer(1), StorePointer(2), Offer(2), Offer(1)]

  lemma {:induction false} TwoSaves(steps: seq<SaverStep>)
    requires |steps| == 4
    requires steps[0] == StorePointer(1) && steps[1] == StorePointer(2) && steps[2] == Offer(2) && steps[3] == Offer(1)
    ensures WholeSaves(steps)
  {
    assert OfferedAfter(steps, 0) && OfferedAfter(steps, 1) && StoredBefore(steps, 2) && StoredBefore(steps, 3);
    hide OfferedAfter, StoredBefore;
  }

  lemma {:induction false} TwoSavesEnd(steps: seq<SaverStep>)
    requires |steps| == 4
    requires steps[0] == StorePointer(1) && steps[1] == StorePointer(2) && steps[2] == Offer(2) && steps[3] == Offer(1)
    ensures LastStored(steps) == Some(2) && LastOffered(steps) == Some(1)
  {
    assert LastStored(steps) == LastStored(steps[..3]);
    assert LastStored(steps[..3]) == LastStored(steps[..3][..2]);
  }

  // Two concurrent saves can leave every channel older than the store for good.
  lemma {:induction false} RacingSaves(s: State, id: nat)
    requires id in s.subscribers && id in s.streams
    ensures WholeSaves(TWO_SAVES) && id in Race(s, TWO_SAVES).streams
    ensures Race(s, TWO_SAVES).store == 2 && Race(s, TWO_SAVES).streams[id].buffer == Some(1)
  {
    TwoSaves(TWO_SAVES);
    TwoSavesEnd(TWO_SAVES);
    RaceOutcome(s, TWO_SAVES, id);
    hide *;
  }
}
