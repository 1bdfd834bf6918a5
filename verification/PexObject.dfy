/** The per-connection ledger of app/discovery/pex.py, updated in place. */
module PexObject {
  import opened Basics
  import opened OrderedDict
  import opened Pex
  import opened PexConvergence

  class PexLedger {
    const minInterval: real
    var toldAdded: set<Key>
    var pendingAdded: seq<Contact>
    var pendingDropped: seq<Farewell>
    var lastSent: Option<real>
    var initialSent: bool

    constructor (minInterval: real)
      ensures this.minInterval == minInterval && Contents() == FRESH && Valid()
    {
      this.minInterval := minInterval;
      toldAdded, pendingAdded, pendingDropped, lastSent, initialSent := {}, [], [], None, false;
    }

    function Contents(): Ledger
      reads this
    {
      Ledger(toldAdded, pendingAdded, pendingDropped, lastSent, initialSent)
    }

    ghost predicate Valid()
      reads this
    {
      Inv(Contents())
    }

    /** How many changes are waiting. */
    function Pending(): nat
      reads this
    {
      |pendingAdded| + |pendingDropped|
    }

    method NoteConnected(contact: Contact)
      requires Valid()
      modifies this`pendingAdded, this`pendingDropped
      ensures Valid() && Contents() == Joined(old(Contents()), contact)
    {
      JoinedKeepsInv(Contents(), contact);
      pendingDropped := Remove(pendingDropped, contact.key);
      if contact.key in toldAdded {
        return;
      }
      pendingAdded := Put(pendingAdded, contact);
    }

    method NoteDisconnected(address: Farewell)
      requires Valid()
      modifies this`pendingAdded, this`pendingDropped
      ensures Valid() && Contents() == Left(old(Contents()), address)
    {
      LeftKeepsInv(Contents(), address);
      pendingAdded := Remove(pendingAdded, address.key);
      if address.key in toldAdded {
        pendingDropped := Put(pendingDropped, address);
      }
    }

    /** A snapshot is folded in; it amounts to a sequence of notes, and what it leaves queued is the
        difference between what was told and who is there. */
    method Sync(contacts: seq<Contact>) returns (pending: nat)
      requires Valid()
      modifies this`pendingAdded, this`pendingDropped
      ensures Valid() && pending == Pending()
      ensures exists notes :: Contents() == NotedAll(old(Contents()), notes)
      ensures Keys(pendingAdded) == old(Keys(pendingAdded)) + (Keys(contacts) - toldAdded)
      ensures Keys(pendingDropped) == toldAdded - Keys(contacts)
      ensures exists snapshot ::
                Distinct(snapshot) && Keys(snapshot) == Keys(contacts) && Synced(old(Contents()), snapshot, Contents())
    {
      var current := Collect(contacts);
      ghost var notes := JoinAll(current);
      ghost var more := WithdrawMissing(current, notes, old(Contents()));
      pending := Pending();
    }

    /** Later contacts replace earlier ones with the same address. */
    static method Collect(contacts: seq<Contact>) returns (current: seq<Contact>)
      ensures Distinct(current) && Keys(current) == Keys(contacts)
      ensures forall c :: c in current ==> c in contacts
    {
      current := [];
      for i := 0 to |contacts|
        invariant Distinct(current) && Keys(current) == Keys(contacts[..i])
        invariant forall c :: c in current ==> c in contacts
      {
        PutKeeps(current, contacts[i]);
        KeysSplit(contacts[..i], [contacts[i]]);
        assert contacts[..i + 1] == contacts[..i] + [contacts[i]];
        assert Keys([contacts[i]]) == {contacts[i].key} by { assert contacts[i] in [contacts[i]]; }
        current := Put(current, contacts[i]);
      }
      assert contacts[..|contacts|] == contacts;
    }

    method JoinAll(current: seq<Contact>) returns (ghost notes: seq<Note>)
      requires Valid() && Distinct(current)
      modifies this`pendingAdded, this`pendingDropped
      ensures Valid() && Contents() == NotedAll(old(Contents()), notes)
      ensures Keys(pendingAdded) == old(Keys(pendingAdded)) + (Keys(current) - toldAdded)
      ensures Keys(pendingDropped) == old(Keys(pendingDropped)) - Keys(current)
      ensures forall c :: c in current && c.key !in toldAdded ==> c in pendingAdded
    {
      notes := [];
      for i := 0 to |current|
        invariant Valid() && Contents() == NotedAll(old(Contents()), notes)
        invariant Keys(pendingAdded) == old(Keys(pendingAdded)) + (Keys(current[..i]) - toldAdded)
        invariant Keys(pendingDropped) == old(Keys(pendingDropped)) - Keys(current[..i])
        invariant forall j :: 0 <= j < i && current[j].key !in toldAdded ==> current[j] in pendingAdded
      {
        var c := current[i];
        OneMoreKey(current, i);
        JoinedKeepsInv(Contents(), c);
        PutKeeps(pendingAdded, c);
        NotedOneMore(old(Contents()), notes, Join(c));
        NoteConnected(c);
        notes := notes + [Join(c)];
      }
      assert current[..|current|] == current;
    }

    static lemma OneMoreKey(d: seq<Contact>, i: nat)
      requires i < |d| && Distinct(d)
      ensures Keys(d[..i + 1]) == Keys(d[..i]) + {d[i].key} && forall j :: 0 <= j < i ==> d[j].key != d[i].key
    {
      KeysSplit(d[..i], [d[i]]);
      assert d[..i + 1] == d[..i] + [d[i]];
      assert Keys([d[i]]) == {d[i].key} by { assert d[i] in [d[i]]; }
    }

    method WithdrawMissing(current: seq<Contact>, ghost before: seq<Note>, ghost start: Ledger)
      returns (ghost notes: seq<Note>)
      requires Valid() && Contents() == NotedAll(start, before)
      modifies this`pendingDropped, this`pendingAdded
      ensures Valid() && Contents() == NotedAll(start, notes)
      ensures pendingAdded == old(pendingAdded)
      ensures Keys(pendingDropped) == old(Keys(pendingDropped)) + (toldAdded - Keys(current))
    {
      notes := before;
      var left := toldAdded;
      while left != {}
        invariant left <= toldAdded && pendingAdded == old(pendingAdded)
        invariant Valid() && Contents() == NotedAll(start, notes)
        invariant Keys(pendingDropped) == old(Keys(pendingDropped)) + ((toldAdded - left) - Keys(current))
        decreases |left|
      {
        var key :| key in left;
        HasIsKey(current, key);
        if !Has(current, key) {
          notes := Withdraw(key, notes, start);
        }
        left := left - {key};
      }
    }

    method Withdraw(key: Key, ghost before: seq<Note>, ghost start: Ledger) returns (ghost notes: seq<Note>)
      requires Valid() && Contents() == NotedAll(start, before) && key in toldAdded
      modifies this`pendingDropped, this`pendingAdded
      ensures Valid() && Contents() == NotedAll(start, notes)
      ensures pendingAdded == old(pendingAdded)
      ensures Keys(pendingDropped) == old(Keys(pendingDropped)) + {key}
    {
      var farewell := Slot(key, "pex");
      LeftKeepsInv(Contents(), farewell);
      NothingToRemove(pendingAdded, key);
      NotedOneMore(start, before, Leave(farewell));
      notes := before + [Leave(farewell)];
      NoteDisconnected(farewell);
    }

    static lemma {:induction false} NothingToRemove(d: seq<Contact>, k: Key)
      requires k !in Keys(d)
      ensures Remove(d, k) == d
    {
      if d != [] {
        assert d[0] in d;
        assert forall s :: s in d[1..] ==> s in d;
        NothingToRemove(d[1..], k);
      }
    }

    /** The next message, or nothing to say, or the encoder's refusal. */
    method BuildMessage(before: real, after: real) returns (r: Outcome)
      requires Valid()
      modifies this
      ensures Valid() && (Contents(), r) == Build(old(Contents()), minInterval, before, after)
      ensures r.Sent? ==> Lawful(old(Contents()), r.message)
    {
      BuildKeepsInv(Contents(), minInterval, before, after);
      MessagesAreLawful(Contents(), minInterval, before, after);
      if !Due(Contents(), minInterval, before) {
        return Silent;
      }
      var added := DrainAdded();
      var dropped := DrainDropped();
      if added == [] && dropped == [] {
        assert Keys(dropped) == {};
        assert toldAdded == old(toldAdded);
        assert pendingAdded == old(pendingAdded) && pendingDropped == old(pendingDropped);
        return Silent;
      }
      if !Packable(added) || !Packable(dropped) {
        return Raised;
      }
      lastSent := Some(after);
      initialSent := true;
      TellAll(added);
      return Sent(Message(added, dropped));
    }

    method TellAll(added: seq<Contact>)
      modifies this`toldAdded
      ensures toldAdded == old(toldAdded) + Keys(added)
    {
      for i := 0 to |added|
        invariant toldAdded == old(toldAdded) + Keys(added[..i])
      {
        KeysSplit(added[..i], [added[i]]);
        assert added[..i + 1] == added[..i] + [added[i]];
        assert Keys([added[i]]) == {added[i].key} by { assert added[i] in [added[i]]; }
        toldAdded := toldAdded + {added[i].key};
      }
      assert added[..|added|] == added;
    }

    method DrainAdded() returns (drained: seq<Contact>)
      modifies this`pendingAdded
      ensures drained == First(old(pendingAdded), Cap(old(Contents())))
      ensures pendingAdded == Rest(old(pendingAdded), Cap(old(Contents())))
    {
      var limit := Cap(Contents());
      drained := [];
      for i := 0 to |pendingAdded|
        invariant i <= limit && drained == old(pendingAdded)[..i] && pendingAdded == old(pendingAdded)[i..]
      {
        if |drained| >= limit {
          break;
        }
        drained := drained + [pendingAdded[0]];
        pendingAdded := Remove(pendingAdded, pendingAdded[0].key);
      }
    }

    method DrainDropped() returns (drained: seq<Farewell>)
      modifies this`pendingDropped, this`toldAdded
      ensures drained == First(old(pendingDropped), MAX_PER_MESSAGE)
      ensures pendingDropped == Rest(old(pendingDropped), MAX_PER_MESSAGE)
      ensures toldAdded == old(toldAdded) - Keys(drained)
    {
      drained := [];
      for i := 0 to |pendingDropped|
        invariant i <= MAX_PER_MESSAGE && drained == old(pendingDropped)[..i]
        invariant pendingDropped == old(pendingDropped)[i..]
        invariant toldAdded == old(toldAdded) - Keys(drained)
      {
        if |drained| >= MAX_PER_MESSAGE {
          break;
        }
        var f := pendingDropped[0];
        KeysSplit(drained, [f]);
        assert Keys([f]) == {f.key} by { assert f in [f]; }
        drained := drained + [f];
        pendingDropped := Remove(pendingDropped, f.key);
        toldAdded := toldAdded - {f.key};
      }
    }
  }
}
