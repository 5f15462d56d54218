# Ronin Club registries in Dafny

This project models two small ink! smart contracts. Each is an append-only registry over a map keyed
by account plus an insertion-ordered list of accounts. The two contracts are independent.

- **Registration registry** (`mission4/lib.rs`, `TransactionContract`, module `DiscordRegister`,
  file `discord_register.dfy`). It accepts one (Discord ID, Discord username) submission under a
  *global* gate: once `submission_count` is 1, every later call fails, whoever the caller.
  A Discord ID must be 18 or 19 bytes long. `list_submitted_users` reads back one row per
  submitted address, joined with the author wallet and the two maps.
- **Message registry** (`mission5/lib.rs`, `CrudContract`, module `RoninMission5User`,
  file `ronin_mission5_user.dfy`). The constructor seeds the text "I created my CRUD contract"
  for its creator. After that, each account may create one message. Messages can be read back
  one account at a time (`SenderNotFound` when absent) or all at once, in creation order.

Each contract is a Dafny `class` whose fields are the contract's storage.
`Mapping<AccountId, T>` becomes a `map`, `Vec<T>` becomes a `seq`, `Vec<u8>` becomes a
`seq<byte>`, and `String` becomes `string`. `AccountId` is a type parameter `A` with equality
only. The caller that `self.env().caller()` would supply is an explicit `caller` parameter.
Errors are a `Result` datatype (`wrappers.dfy`). The specification helper `Elements` (the accounts appearing in a log) is shared by both registries (`logs.dfy`).

Invariants over arbitrary call sequences are class invariants (`Valid()`). The constructor
establishes `Valid()` and every state-changing method requires and re-establishes it:

- Registration registry: `submission_count <= 1`, and the counter equals the lengths of
  `submitted_addresses` and `all_discord_ids`. The three maps are keyed by exactly the submitted
  addresses, every `submissions` value is `true`, and every stored Discord ID has a valid length.
  Together with `SubmitTransaction`'s contract (success only from count 0, and the count becomes 1),
  this means at most one submission ever succeeds.
- Message registry: `senders` has no duplicates and its elements are exactly the keys of
  `messages`. The creator's seed message stays first and keeps its text. Here `creator` is a
  ghost field that only the specification uses.

`submission_count` is a `u32` newtype. The invariant keeps it at most 1, so its `+= 1` cannot
overflow.

## Model

| member | source | states |
|---|---|---|
| `DiscordRegister.TransactionContract.constructor` | mission4/lib.rs:37-49 | a fresh contract has the author wallet `"YOUR_RONIN_WALLET"`, count 0, empty logs and maps, an empty read-back, and satisfies the storage invariant |
| `DiscordRegister.TransactionContract.SubmitTransaction` | mission4/lib.rs:52-77 | count >= 1 gives `SubmissionLimitReached` before the length is looked at; count 0 with a length outside 18..19 gives `InvalidDiscordIDLength`; both leave every field unchanged; otherwise `Ok` with exactly these effects: the ID appended to `all_discord_ids`, `caller` mapped to the ID, the username and `true`, `caller` appended to `submitted_addresses`, count 0 to 1, the wallet untouched; afterwards the read-back is exactly the one submitted row; the invariant (count <= 1) is preserved |
| `DiscordRegister.TransactionContract.ListSubmittedUsers` | mission4/lib.rs:81-88 | read-only; one row per submitted address, in log order, each `(author_wallet, acc, id or empty, username or empty)`; under the invariant each row's ID is the matching entry of `all_discord_ids` |
| `DiscordRegister.RowsSpec` | mission4/lib.rs:82-87 | the map/collect over the address log has the log's length and row `i` is built from the `i`-th address with default-empty lookups |
| `DiscordRegister.OnlyFirstSubmissionAdmitted` | mission4/lib.rs:56-74 | on a fresh contract a valid first submission succeeds; a second one by any caller, with any ID, fails with `SubmissionLimitReached`; the read-back is exactly the first row |
| `RoninMission5User.CrudContract.constructor` | mission5/lib.rs:25-36 | `messages` is exactly `creator ↦ "I created my CRUD contract"`, `senders == [creator]`, and the invariant holds |
| `RoninMission5User.CrudContract.CreateMessage` | mission5/lib.rs:39-51 | a caller that already has a message gets `MessageAlreadyCreatedBySender` and nothing changes, including its own text; otherwise `Ok`, `caller ↦ message` is inserted with no check on the text, `caller` is appended to `senders`, no other entry changes, and a read of `caller` then returns the message; the invariant is preserved; after a success the bulk read is the previous bulk read followed by `(caller, message)`, so messages are read back in creation order |
| `RoninMission5User.CrudContract.ReadMessageFrom` | mission5/lib.rs:54-60 | read-only; under the storage invariant the lookup succeeds exactly for the accounts in `senders` (the seed's creator and every successful creator), so an account never given a message gets `SenderNotFound`; a success carries the stored text; together with `CreateMessage` this gives the create-then-read round trip |
| `RoninMission5User.CrudContract.ReadAllMessages` | mission5/lib.rs:63-79 | read-only; the result is the reference join of `senders` against `messages` (absent accounts skipped, log order kept); under the invariant it has one entry per sender, entry `k` is `(senders[k], its message)`, the first entry is the creator's seed, and no account appears twice |
| `RoninMission5User.JoinedAppend` | mission5/lib.rs:71-76 | joining a concatenated log is the concatenation of the joins; `CreateMessage` uses it to show a create appends exactly one entry to the bulk read |
| `RoninMission5User.JoinedIgnoresUnlogged` | mission5/lib.rs:71-76 | storing a message for an account the log does not mention does not change the join, so a create cannot alter the earlier bulk-read entries |
| `RoninMission5User.JoinedSound` | mission5/lib.rs:73-74 | every emitted pair names a logged account that has a message, paired with that stored message |
| `RoninMission5User.JoinedComplete` | mission5/lib.rs:71-76 | when every logged account has a message, nothing is skipped and entry `k` is the `k`-th account with its message |
| `RoninMission5User.CreateOncePerAccount` | mission5/lib.rs:25-79 | on a fresh contract the creator cannot create again; another account creates once, a second attempt fails, the per-account read returns its first message, and the bulk read is `[(creator, seed), (caller, m1)]` |

## Left out

- The ink! host environment: `self.env().caller()` is a parameter; gas and fees are not modelled; neither is how `Mapping` and `Vec` persist in contract storage.
- The contract, storage, message and constructor attributes, and the `no_std`/`no_main` crate configuration.
- The SCALE codec and type-info derives on the error enums. They are serialization plumbing for a library that is not part of this model.
- `AccountId` internals. Accounts are compared only for equality.
- The unimplemented TODOs in `mission5/lib.rs`. These are the optional minimum message length, `update_message`, `delete_message`, the custom return struct and the error on an empty bulk read. None of them exist in the code, so none is enforced here.
- The `mission5` reads take `&mut self` but mutate nothing. In the model, `ReadMessageFrom` is a function and `ReadAllMessages` is a method without a `modifies` clause.
- The cloning of `senders` before the loop in `read_all_messages` (values are immutable in Dafny) and the `clone()` calls in `submit_transaction`.
