/** The registration registry (`discord_register`): a contract that records one
    (Discord ID, Discord username) pair for the account that submits it, behind a
    global gate that admits a single successful submission over the contract's
    whole lifetime. Accounts are an opaque type `A` with equality; the caller that
    the host environment would supply is passed in explicitly. */
module DiscordRegister {
  import opened Wrappers
  import opened Logs

  newtype byte = x: int | 0 <= x < 0x100
  newtype u32 = x: int | 0 <= x < 0x1_0000_0000

  /** A `Vec<u8>`: a Discord ID or a Discord username. */
  type Bytes = seq<byte>

  /** One row of the read-back: (author wallet, account, Discord ID, Discord username). */
  type Row<A> = (string, A, Bytes, Bytes)

  /** The author wallet every fresh contract is built with. */
  const AUTHOR_WALLET: string := "YOUR_RONIN_WALLET"

  /** The accepted byte lengths of a Discord ID are 18 through 19. */
  const MIN_DISCORD_ID_LEN: nat := 18
  const MAX_DISCORD_ID_LEN: nat := 19

  datatype TransactionError = SubmissionLimitReached | InvalidDiscordIDLength

  predicate ValidDiscordIdLength(id: Bytes) {
    MIN_DISCORD_ID_LEN <= |id| <= MAX_DISCORD_ID_LEN
  }

  /** `Mapping::get(..).unwrap_or_default()` on a byte-vector mapping. */
  function GetOrEmpty<A>(m: map<A, Bytes>, a: A): Bytes {
    if a in m then m[a] else []
  }

  /** The `iter().map(..).collect()` over an address log, joined with the two maps. */
  function Rows<A>(wallet: string, addresses: seq<A>, ids: map<A, Bytes>, names: map<A, Bytes>): seq<Row<A>> {
    if addresses == [] then []
    else [(wallet, addresses[0], GetOrEmpty(ids, addresses[0]), GetOrEmpty(names, addresses[0]))]
         + Rows(wallet, addresses[1..], ids, names)
  }

  /** The read-back has one row per logged address, in log order, each row carrying the
      wallet, the address and what the maps hold for it (empty when they hold nothing). */
  lemma {:induction false} RowsSpec<A>(wallet: string, addresses: seq<A>, ids: map<A, Bytes>, names: map<A, Bytes>)
    ensures |Rows(wallet, addresses, ids, names)| == |addresses|
    ensures forall i :: 0 <= i < |addresses| ==>
      Rows(wallet, addresses, ids, names)[i] == (wallet, addresses[i], GetOrEmpty(ids, addresses[i]), GetOrEmpty(names, addresses[i]))
  {
    if addresses != [] {
      RowsSpec(wallet, addresses[1..], ids, names);
      forall i | 0 < i < |addresses|
        ensures Rows(wallet, addresses, ids, names)[i] == Rows(wallet, addresses[1..], ids, names)[i - 1]
      {
      }
    }
  }

  class TransactionContract<A(==)> {
    var authorWallet: string
    /** Whether an account has submitted. */
    var submissions: map<A, bool>
    /** The accounts that submitted, in submission order. */
    var submittedAddresses: seq<A>
    var submissionCount: u32
    var discordIds: map<A, Bytes>
    var discordUsernames: map<A, Bytes>
    /** Every accepted Discord ID, in submission order. */
    var allDiscordIds: seq<Bytes>

    /** The storage invariant kept by every message: at most one submission, the counter and
        both logs agree, the three maps are keyed by exactly the logged accounts, and every
        stored Discord ID passed the length check. */
    ghost predicate Valid()
      reads this
    {
      && submissionCount <= 1
      && submissionCount as int == |submittedAddresses| == |allDiscordIds|
      && submissions.Keys == discordIds.Keys == discordUsernames.Keys
      && submissions.Keys == Elements(submittedAddresses)
      && submissions.Values <= {true}
      && (forall i :: 0 <= i < |submittedAddresses| ==> discordIds[submittedAddresses[i]] == allDiscordIds[i])
      && (forall i :: 0 <= i < |allDiscordIds| ==> ValidDiscordIdLength(allDiscordIds[i]))
    }

    /** `new`: the author wallet is set and nothing has been submitted. */
    constructor ()
      ensures Valid()
      ensures authorWallet == AUTHOR_WALLET
      ensures submissions == map[] && submittedAddresses == [] && submissionCount == 0
      ensures discordIds == map[] && discordUsernames == map[] && allDiscordIds == []
      ensures ListSubmittedUsers() == []
    {
      authorWallet := AUTHOR_WALLET;
      submissions := map[];
      submittedAddresses := [];
      submissionCount := 0;
      discordIds := map[];
      discordUsernames := map[];
      allDiscordIds := [];
    }

    /** `submit_transaction`. The global limit is checked before the length of the ID, and
        either check failing leaves every field as it was. */
    method SubmitTransaction(caller: A, discordId: Bytes, discordUsername: Bytes) returns (r: Result<(), TransactionError>)
      requires Valid()
      modifies this
      ensures Valid()
      ensures old(submissionCount) >= 1 ==> r == Err(SubmissionLimitReached)
      ensures old(submissionCount) == 0 && !ValidDiscordIdLength(discordId) ==> r == Err(InvalidDiscordIDLength)
      ensures r == Ok(()) <==> old(submissionCount) == 0 && ValidDiscordIdLength(discordId)
      ensures r.Err? ==> unchanged(this)
      ensures r.Ok? ==>
        && authorWallet == old(authorWallet)
        && allDiscordIds == old(allDiscordIds) + [discordId]
        && discordIds == old(discordIds)[caller := discordId]
        && discordUsernames == old(discordUsernames)[caller := discordUsername]
        && submissions == old(submissions)[caller := true]
        && submittedAddresses == old(submittedAddresses) + [caller]
        && submissionCount == old(submissionCount) + 1 == 1
      ensures r.Ok? ==> ListSubmittedUsers() == [(authorWallet, caller, discordId, discordUsername)]
    {
      if submissionCount >= 1 {
        return Err(SubmissionLimitReached);
      }
      if |discordId| < MIN_DISCORD_ID_LEN || |discordId| > MAX_DISCORD_ID_LEN {
        return Err(InvalidDiscordIDLength);
      }
      assert submittedAddresses == [];
      allDiscordIds := allDiscordIds + [discordId];
      discordIds := discordIds[caller := discordId];
      discordUsernames := discordUsernames[caller := discordUsername];
      submissions := submissions[caller := true];
      submittedAddresses := submittedAddresses + [caller];
      submissionCount := submissionCount + 1;
      assert submittedAddresses[0] == caller;
      return Ok(());
    }

    /** `list_submitted_users`: one row per submitted address, in submission order. */
    function ListSubmittedUsers(): (rows: seq<Row<A>>)
      reads this
      ensures |rows| == |submittedAddresses|
      ensures forall i :: 0 <= i < |rows| ==>
        rows[i] == (authorWallet, submittedAddresses[i],
                    GetOrEmpty(discordIds, submittedAddresses[i]),
                    GetOrEmpty(discordUsernames, submittedAddresses[i]))
      ensures Valid() ==> forall i :: 0 <= i < |rows| ==> rows[i].2 == allDiscordIds[i]
    {
      RowsSpec(authorWallet, submittedAddresses, discordIds, discordUsernames);
      Rows(authorWallet, submittedAddresses, discordIds, discordUsernames)
    }
  }

  /** Two submissions to a fresh contract: only the first one is admitted, whoever makes the
      second and whatever it carries (the limit is reported even for an ID of a bad length),
      and the read-back then holds exactly the first submission. */
  method OnlyFirstSubmissionAdmitted<A(==)>(first: A, second: A, id1: Bytes, name1: Bytes, id2: Bytes, name2: Bytes)
    returns (r1: Result<(), TransactionError>, r2: Result<(), TransactionError>, rows: seq<Row<A>>)
    requires ValidDiscordIdLength(id1)
    ensures r1 == Ok(())
    ensures r2 == Err(SubmissionLimitReached)
    ensures rows == [(AUTHOR_WALLET, first, id1, name1)]
  {
    var c := new TransactionContract<A>();
    r1 := c.SubmitTransaction(first, id1, name1);
    r2 := c.SubmitTransaction(second, id2, name2);
    rows := c.ListSubmittedUsers();
  }
}
