/** The message registry (`ronin_mission5_user`): a contract that stores one text message
    per account, seeded at construction with a fixed message for its creator, and reads
    messages back one account at a time or all at once in the order they were created.
    Accounts are an opaque type `A` with equality; the caller that the host environment
    would supply is passed in explicitly. */
module RoninMission5User {
  import opened Wrappers
  import opened Logs

  /** The message `new` stores for the creator. */
  const INIT_MESSAGE: string := "I created my CRUD contract"

  datatype CrudError = MessageAlreadyCreatedBySender | SenderNotFound

  /** No account appears twice in a log. */
  ghost predicate NoDuplicates<A>(log: seq<A>) {
    forall i, j :: 0 <= i < j < |log| ==> log[i] != log[j]
  }

  /** The bulk read-back as a reference definition: walk the log in order and emit
      `(account, message)` for each account the store holds, skipping the others. */
  function Joined<A>(log: seq<A>, store: map<A, string>): seq<(A, string)> {
    if log == [] then []
    else
      var a := log[|log| - 1];
      Joined(log[..|log| - 1], store) + (if a in store then [(a, store[a])] else [])
  }

  /** Joining distributes over concatenating logs, so the read-back keeps log order. */
  lemma {:induction false} JoinedAppend<A>(log1: seq<A>, log2: seq<A>, store: map<A, string>)
    ensures Joined(log1 + log2, store) == Joined(log1, store) + Joined(log2, store)
  {
    if log2 == [] {
      assert log1 + log2 == log1;
    } else {
      var init := log2[..|log2| - 1];
      assert (log1 + log2)[..|log1 + log2| - 1] == log1 + init;
      JoinedAppend(log1, init, store);
    }
  }

  /** Storing a message for an account the log does not mention leaves the join unchanged. */
  lemma {:induction false} JoinedIgnoresUnlogged<A>(log: seq<A>, store: map<A, string>, a: A, text: string)
    requires a !in log
    ensures Joined(log, store[a := text]) == Joined(log, store)
  {
    if log != [] {
      var init := log[..|log| - 1];
      assert forall x :: x in init ==> x in log;
      JoinedIgnoresUnlogged(init, store, a, text);
    }
  }

  /** Every emitted pair names a logged account that the store holds, with its stored message. */
  lemma {:induction false} JoinedSound<A>(log: seq<A>, store: map<A, string>)
    ensures forall k :: 0 <= k < |Joined(log, store)| ==>
      var (a, text) := Joined(log, store)[k];
      a in log && a in store && text == store[a]
  {
    if log != [] {
      var init := log[..|log| - 1];
      JoinedSound(init, store);
      forall k | 0 <= k < |Joined(init, store)|
        ensures Joined(init, store)[k].0 in log
      {
        var a := Joined(init, store)[k].0;
        var i :| 0 <= i < |init| && init[i] == a;
        assert log[i] == a;
      }
    }
  }

  /** When the store holds every logged account, nothing is skipped: entry `k` of the
      read-back is the `k`-th logged account with its message. */
  lemma {:induction false} JoinedComplete<A>(log: seq<A>, store: map<A, string>)
    requires forall i :: 0 <= i < |log| ==> log[i] in store
    ensures |Joined(log, store)| == |log|
    ensures forall k :: 0 <= k < |log| ==> Joined(log, store)[k] == (log[k], store[log[k]])
  {
    if log != [] {
      var init := log[..|log| - 1];
      JoinedComplete(init, store);
    }
  }

  class CrudContract<A(==)> {
    /** The message stored for each account. */
    var messages: map<A, string>
    /** The accounts that have a message, in the order they obtained it. */
    var senders: seq<A>
    /** The account that built the contract. */
    ghost var creator: A

    /** The storage invariant kept by every message: the log has no duplicates and lists
        exactly the accounts that have a message, and the creator's seed message stays first. */
    ghost predicate Valid()
      reads this
    {
      && NoDuplicates(senders)
      && Elements(senders) == messages.Keys
      && |senders| > 0 && senders[0] == creator
      && creator in messages && messages[creator] == INIT_MESSAGE
    }

    /** `new`: the creator's seed message is the only one. */
    constructor (caller: A)
      ensures Valid()
      ensures creator == caller
      ensures messages == map[caller := INIT_MESSAGE]
      ensures senders == [caller]
    {
      messages := map[caller := INIT_MESSAGE];
      senders := [caller];
      creator := caller;
      new;
      assert senders[0] == caller;
    }

    /** `create_message`: once per account, with no check on the text. */
    method CreateMessage(caller: A, message: string) returns (r: Result<(), CrudError>)
      requires Valid()
      modifies this
      ensures Valid()
      ensures creator == old(creator)
      ensures caller in old(messages) ==> r == Err(MessageAlreadyCreatedBySender) && unchanged(this)
      ensures caller !in old(messages) ==>
        && r == Ok(())
        && messages == old(messages)[caller := message]
        && senders == old(senders) + [caller]
      ensures forall a :: a in old(messages) ==> a in messages && messages[a] == old(messages)[a]
      ensures forall a :: a in messages && a != caller ==> a in old(messages)
      ensures r.Ok? ==> ReadMessageFrom(caller) == Ok(message)
      ensures r.Ok? ==> Joined(senders, messages) == Joined(old(senders), old(messages)) + [(caller, message)]
    {
      if caller in messages {
        return Err(MessageAlreadyCreatedBySender);
      }
      messages := messages[caller := message];
      senders := senders + [caller];
      assert senders[|senders| - 1] == caller;
      assert forall i :: 0 <= i < |old(senders)| ==> senders[i] == old(senders)[i];
      JoinedIgnoresUnlogged(old(senders), old(messages), caller, message);
      JoinedAppend(old(senders), [caller], messages);
      assert Joined([caller], messages) == [(caller, message)];
      return Ok(());
    }

    /** `read_message_from`: the stored message of `sender`, or `SenderNotFound`. */
    function ReadMessageFrom(sender: A): (r: Result<string, CrudError>)
      reads this
      ensures r.Ok? <==> sender in messages
      ensures r.Ok? ==> r.value == messages[sender]
      ensures r.Err? ==> r.error == SenderNotFound
      ensures Valid() ==> (r.Ok? <==> sender in Elements(senders))
    {
      if sender in messages then Ok(messages[sender]) else Err(SenderNotFound)
    }

    /** `read_all_messages`: the logged accounts that have a message, each with it, in log
        order; under the invariant that is every logged account, the creator's seed first. */
    method ReadAllMessages() returns (allMessages: seq<(A, string)>)
      ensures allMessages == Joined(senders, messages)
      ensures Valid() ==> |allMessages| == |senders|
      ensures Valid() ==> forall k :: 0 <= k < |senders| ==> allMessages[k] == (senders[k], messages[senders[k]])
      ensures Valid() ==> allMessages[0] == (creator, INIT_MESSAGE)
      ensures Valid() ==> forall k, l :: 0 <= k < l < |allMessages| ==> allMessages[k].0 != allMessages[l].0
    {
      allMessages := [];
      for i := 0 to |senders|
        invariant allMessages == Joined(senders[..i], messages)
      {
        var account := senders[i];
        if account in messages {
          allMessages := allMessages + [(account, messages[account])];
        }
        assert senders[..i + 1][..i] == senders[..i];
      }
      assert senders[..|senders|] == senders;
      if Valid() {
        JoinedComplete(senders, messages);
      }
    }
  }

  /** A fresh contract and a second account: the creator cannot create again, the other
      account creates once and only once, and both reads return what was stored, the seed
      first. */
  method CreateOncePerAccount<A(==)>(creator: A, caller: A, m1: string, m2: string)
    returns (r0: Result<(), CrudError>, r1: Result<(), CrudError>, r2: Result<(), CrudError>,
             read: Result<string, CrudError>, all: seq<(A, string)>)
    requires caller != creator
    ensures r0 == Err(MessageAlreadyCreatedBySender)
    ensures r1 == Ok(())
    ensures r2 == Err(MessageAlreadyCreatedBySender)
    ensures read == Ok(m1)
    ensures all == [(creator, INIT_MESSAGE), (caller, m1)]
  {
    var c := new CrudContract<A>(creator);
    r0 := c.CreateMessage(creator, m2);
    r1 := c.CreateMessage(caller, m1);
    r2 := c.CreateMessage(caller, m2);
    read := c.ReadMessageFrom(caller);
    all := c.ReadAllMessages();
  }
}
