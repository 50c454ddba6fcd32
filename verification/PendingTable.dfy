/** The pending table as the object it is: each method is one critical section
    under `pendingMu`, and does to the heap what the corresponding step of the
    multiplexer does to its state. */
module PendingTable {
  import opened Bytes
  import opened Decimals
  import opened Multiplexer

  /** A channel of capacity one. Sending on, or closing, a closed channel panics,
      and sending on a full one blocks; the callers must rule these out. */
  class Channel {
    var buf: Option<nat>
    var closed: bool
    ghost const handle: nat
    ghost const id: nat

    constructor (ghost handle: nat, ghost id: nat)
      ensures View() == OPEN && this.handle == handle && this.id == id
    {
      buf, closed := None, false;
      this.handle, this.id := handle, id;
    }

    function View(): Chan
      reads this
    {
      Chan(buf, closed)
    }

    method Send(frame: nat)
      requires View() == OPEN
      modifies this
      ensures View() == Chan(Some(frame), false)
    {
      buf := Some(frame);
    }

    /** A closed channel yields its buffered message first. */
    method Receive() returns (frame: Option<nat>)
      requires buf.Some? || closed
      modifies this
      ensures frame == old(buf) && buf == None && closed == old(closed)
    {
      frame := buf;
      buf := None;
    }

    method Close()
      requires !closed
      modifies this`closed
      ensures closed
    {
      closed := true;
    }
  }

  /** The pending map with handles for channels. */
  ghost function Handles(pending: map<Text, Channel>): map<Text, nat> {
    map k | k in pending :: pending[k].handle
  }

  lemma HandlesWith(pending: map<Text, Channel>, key: Text, c: Channel)
    ensures Handles(pending[key := c]) == Handles(pending)[key := c.handle]
  {
  }

  lemma HandlesWithout(pending: map<Text, Channel>, key: Text)
    ensures Handles(pending - {key}) == Handles(pending) - {key}
  {
  }

  ghost function Views(made: map<nat, Channel>): Multiplexer.Channels
    reads made.Values
  {
    map h | h in made :: made[h].View()
  }

  /** Every channel is made under its handle. */
  ghost predicate Named(made: map<nat, Channel>) {
    forall h | h in made :: made[h].handle == h
  }

  /** Every pending channel is filed under the text of its id, and is one of those
      made. */
  ghost predicate Filed(pending: map<Text, Channel>, nextId: nat, made: map<nat, Channel>) {
    && Keyed(pending)
    && forall k | k in pending :: pending[k].id <= nextId && pending[k].handle in made && made[pending[k].handle] == pending[k]
  }

  ghost predicate Keyed(pending: map<Text, Channel>) {
    forall k | k in pending :: k == Decimal(pending[k].id)
  }

  lemma ValuesWithout(pending: map<Text, Channel>, k: Text)
    requires k in pending
    ensures forall c | c in pending.Values && c != pending[k] :: c in (pending - {k}).Values
    ensures |pending - {k}| < |pending|
  {
    assert (pending - {k}).Keys == pending.Keys - {k};
    forall c | c in pending.Values && c != pending[k] ensures c in (pending - {k}).Values {
      var j :| j in pending && pending[j] == c;
      assert j in pending - {k};
      assert (pending - {k})[j] == c;
    }
  }

  ghost predicate AllOpen(pending: map<Text, Channel>)
    reads pending.Values
  {
    forall k | k in pending :: !pending[k].closed
  }

  ghost predicate Within(pending: map<Text, Channel>, all: map<Text, Channel>) {
    forall k | k in pending :: k in all && pending[k] == all[k]
  }

  lemma OthersDiffer(pending: map<Text, Channel>, k: Text)
    requires Keyed(pending) && k in pending
    ensures forall j | j in pending && j != k :: pending[j] != pending[k]
  {
  }

  lemma FiledWith(pending: map<Text, Channel>, nextId: nat, made: map<nat, Channel>, key: Text, c: Channel)
    requires Named(made) && Filed(pending, nextId, made) && c.handle !in made
    requires c.id == nextId + 1 && key == Decimal(nextId + 1)
    ensures Named(made[c.handle := c]) && Filed(pending[key := c], nextId + 1, made[c.handle := c])
  {
  }

  lemma ViewsWith(made: map<nat, Channel>, h: nat, c: Channel)
    ensures Views(made[h := c]) == Views(made)[h := c.View()]
  {
  }

  lemma ReleasedIs(t: Table, before: Multiplexer.Channels, after: Multiplexer.Channels)
    requires !t.closed && after.Keys == before.Keys
    requires forall h | h in before :: after[h] == before[h].(closed := h in t.pending.Values || before[h].closed)
    ensures after == Released(t, before)
  {
  }

  lemma SameOwners(pending: map<Text, Channel>, nextId: nat, made: map<nat, Channel>)
    requires Named(made) && Filed(pending, nextId, made)
    ensures forall h | h in made :: h in Handles(pending).Values <==> made[h] in pending.Values
  {
    forall h | h in made && made[h] in pending.Values ensures h in Handles(pending).Values {
      var k :| k in pending && pending[k] == made[h];
      assert Handles(pending)[k] == h;
    }
  }

  class Calls {
    var nextId: nat
    var pending: map<Text, Channel>
    var closed: bool
    var connErr: Option<Text>
    ghost var made: map<nat, Channel>

    ghost predicate Valid()
      reads this, made.Values
    {
      && Named(made) && Filed(pending, nextId, made) && AllOpen(pending)
      && (closed ==> pending == map[])
    }

    ghost function View(): Table
      reads this
    {
      Table(nextId, Handles(pending), closed, connErr)
    }

    ghost function Channels(): Multiplexer.Channels
      reads this, made.Values
    {
      Views(made)
    }

    constructor ()
      ensures Valid() && View() == EMPTY_TABLE && Channels() == map[]
    {
      nextId, pending, closed, connErr := 0, map[], false, None;
      made := map[];
    }

    lemma NextKeyIsNew()
      requires Valid()
      ensures Decimal(nextId + 1) !in pending
    {
      var key := Decimal(nextId + 1);
      if key in pending {
        assert pending[key].id <= nextId;
        DecimalInjective(pending[key].id, nextId + 1);
      }
    }

    method File(key: Text, c: Channel)
      requires Valid() && !closed && key == Decimal(nextId + 1) && key !in pending
      requires c.id == nextId + 1 && c.handle !in made && !c.closed
      modifies this
      ensures Valid() && made == old(made)[c.handle := c]
      ensures View() == Registered(old(View()), c.handle)
    {
      HandlesWith(pending, key, c);
      FiledWith(pending, nextId, made, key, c);
      nextId := nextId + 1;
      pending := pending[key := c];
      made := made[c.handle := c];
    }

    method Open(ghost h: nat) returns (key: Text, c: Channel)
      requires Valid() && !closed && h !in made
      modifies this
      ensures Valid() && key == Decimal(old(nextId) + 1) && key !in old(pending) && fresh(c)
      ensures View() == Registered(old(View()), h) && made == old(made)[h := c]
      ensures Channels() == old(Channels())[h := OPEN]
    {
      NextKeyIsNew();
      ghost var before := made;
      key := Decimal(nextId + 1);
      c := new Channel(h, nextId + 1);
      File(key, c);
      ViewsWith(before, h, c);
    }

    /** The opening of a call: nothing happens on a closed table, and otherwise a
        new id is registered with a new open channel. */
    method Register(ghost h: nat) returns (key: Text, ch: Option<Channel>)
      requires Valid() && h !in made
      modifies this
      ensures Valid()
      ensures ch.None? <==> old(closed)
      ensures ch.None? ==> View() == old(View()) && Channels() == old(Channels())
      ensures ch.Some? ==>
                && key == Decimal(old(nextId) + 1) && key !in old(pending) && fresh(ch.value)
                && View() == Registered(old(View()), h)
                && made == old(made)[h := ch.value] && Channels() == old(Channels())[h := OPEN]
    {
      if closed {
        return "", None;
      }
      var c;
      key, c := Open(h);
      ch := Some(c);
    }

    /** The deferred delete of a call. */
    method Deregister(key: Text)
      requires Valid()
      modifies this
      ensures Valid() && made == old(made)
      ensures View() == Deregistered(old(View()), key) && Channels() == old(Channels())
    {
      HandlesWithout(pending, key);
      pending := pending - {key};
    }

    /** The reader's lookup: the channel of the call registered under the raw id. */
    method LookUp(key: Text) returns (ch: Option<Channel>)
      requires Valid()
      ensures ch.Some? <==> key in View().pending
      ensures ch.Some? ==> View().pending[key] in made && made[View().pending[key]] == ch.value && !ch.value.closed
    {
      ch := if key in pending then Some(pending[key]) else None;
    }

    method CloseOne(k: Text)
      requires k in pending && Keyed(pending) && AllOpen(pending)
      modifies this`pending, {pending[k]}`closed
      ensures pending == old(pending) - {k} && |pending| < |old(pending)|
      ensures Keyed(pending) && AllOpen(pending) && old(pending[k]).closed
      ensures forall c | c in old(pending.Values) && c != old(pending[k]) :: c in pending.Values
    {
      OthersDiffer(pending, k);
      pending[k].Close();
      ValuesWithout(pending, k);
      pending := pending - {k};
    }

    /** The loop of `ShutDown`: every pending channel is closed, exactly once, in
        whatever order the map is traversed, and no other channel changes. */
    method CloseAll()
      requires Keyed(pending) && AllOpen(pending)
      modifies this`pending, pending.Values`closed
      ensures pending == map[] && forall c | c in old(pending.Values) :: c.closed
    {
      ghost var all := pending;
      while |pending| > 0
        invariant Keyed(pending) && AllOpen(pending) && Within(pending, all)
        invariant forall c | c in all.Values :: c.closed || c in pending.Values
        decreases |pending|
      {
        var k :| k in pending;
        CloseOne(k);
      }
    }

    method ReleaseAll()
      requires Valid() && !closed
      modifies this`pending, pending.Values`closed
      ensures pending == map[] && Channels() == Released(old(View()), old(Channels()))
    {
      ghost var table, before, owners := View(), Channels(), pending.Values;
      SameOwners(pending, nextId, made);
      CloseAll();
      assert forall h | h in made :: made[h].View() == before[h].(closed := made[h] in owners || before[h].closed);
      ReleasedIs(table, before, Channels());
    }

    /** The table closes with its first cause and every call still pending sees its
        channel closed, with any buffered reply still in it. */
    method ShutDown(cause: Text)
      requires Valid()
      modifies this, pending.Values`closed
      ensures Valid() && made == old(made)
      ensures View() == Multiplexer.ShutDown(old(View()), cause)
      ensures Channels() == Released(old(View()), old(Channels()))
    {
      if !closed {
        ReleaseAll();
        closed, connErr := true, Some(cause);
      }
    }
  }
}
