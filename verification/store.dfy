// pkg/controlplane/store.go: the latest snapshot and one-slot channels that
// always hold the newest one. The methods run under the store's mutex; module
// Streams interleaves their steps with the consumers'.
module Store {
  import opened Prelude

  // A channel with a buffer of one.
  class Slot<T> {
    var buffer: Option<T>
    var closed: bool

    constructor ()
      ensures buffer.None? && !closed
    {
      buffer, closed := None, false;
    }

    // A send that does not block: it fails when the buffer is full. Sending on
    // a closed channel panics, so it must be open.
    method TrySend(v: T) returns (ok: bool)
      requires !closed
      modifies this
      ensures ok == old(buffer.None?) && !closed
      ensures buffer == if ok then Some(v) else old(buffer)
    {
      ok := buffer.None?;
      if ok {
        buffer := Some(v);
      }
    }

    method TryReceive() returns (v: Option<T>)
      modifies this
      ensures v == old(buffer) && buffer == None && closed == old(closed)
    {
      v := buffer;
      buffer := None;
    }
  }

  class InMemoryStore<T> {
    var snapshot: Option<T>
    var subscribers: set<Slot<T>>

    // Only open channels are subscribed.
    ghost predicate Valid()
      reads this, subscribers
    {
      forall ch | ch in subscribers :: !ch.closed
    }

    constructor ()
      ensures Valid() && snapshot == None && subscribers == {}
    {
      snapshot, subscribers := None, {};
    }

    // Every subscribed channel ends up holding the new snapshot, whatever it
    // held before; a nil snapshot is refused and changes nothing.
    method Save(s: Option<T>) returns (ok: bool)
      requires Valid()
      modifies this`snapshot, subscribers
      ensures Valid() && ok == s.Some?
      ensures snapshot == if ok then s else old(snapshot)
      ensures forall ch | ch in subscribers :: ch.buffer == if ok then s else old(ch.buffer)
    {
      if s.None? {
        return false;
      }
      snapshot := s;
      var rest := subscribers;
      while rest != {}
        invariant rest <= subscribers && Valid() && snapshot == s
        invariant forall ch | ch in subscribers && ch !in rest :: ch.buffer == s
        decreases rest
      {
        var ch :| ch in rest;
        rest := rest - {ch};
        var sent := ch.TrySend(s.value);
        if !sent {
          var _ := ch.TryReceive();
          sent := ch.TrySend(s.value);
          assert sent;
        }
      }
      return true;
    }

    method Get() returns (s: Option<T>)
      ensures s == snapshot
    {
      s := snapshot;
    }

    method Subscribe() returns (ch: Slot<T>)
      requires Valid()
      modifies this`subscribers
      ensures Valid() && fresh(ch) && ch.buffer == None && !ch.closed
      ensures subscribers == old(subscribers) + {ch}
    {
      ch := new Slot();
      subscribers := subscribers + {ch};
    }

    // The unsubscribe function of one channel. Calling it again does nothing.
    method Unsubscribe(ch: Slot<T>)
      requires Valid()
      requires ch.closed || ch in subscribers
      modifies this`subscribers, ch`closed
      ensures Valid() && ch.closed && ch !in subscribers
      ensures subscribers == old(subscribers) - {ch}
    {
      if ch.closed {
        return;
      }
      subscribers := subscribers - {ch};
      ch.closed := true;
    }
  }
}
