/**
 The canister's view of the ICP ledger: matching a deposit block against a
 pending booking, and the refund transfer. The ledger's answers (the blocks a
 query returns, the transfer fee, the transfer's outcome) are inputs; address
 derivation and the content hash are opaque functions carried in `Env`.
 */
module Ledger {
  import opened Types

  datatype Operation =
    | Burn
    | Mint
    | Transfer(from: Address, to: Address, amount: nat)

  /** A ledger block: its transaction's memo and optional operation. */
  datatype Block = Block(memo: nat, operation: Option<Operation>)

  /**
   The opaque collaborators: this canister's own principal, the derivation of a
   principal's default-subaccount address, and the content hash used to compare
   addresses.
   */
  datatype Env = Env(canister: Principal, addressOf: Principal -> Address, hash: Address -> nat)

  /**
   A block pays `amount` from `sender` to this canister with the given memo.
   Addresses are compared through their hashes, so a collision counts as equal.
   */
  predicate Matches(env: Env, b: Block, sender: Principal, amount: nat, memo: nat) {
    && b.operation.Some?
    && b.operation.value.Transfer?
    && b.memo == memo
    && env.hash(env.addressOf(sender)) == env.hash(b.operation.value.from)
    && env.hash(env.addressOf(env.canister)) == env.hash(b.operation.value.to)
    && amount == b.operation.value.amount
  }

  /** The position of the first matching block, as the blocks' `find` returns it. */
  function FindMatch(env: Env, blocks: seq<Block>, sender: Principal, amount: nat, memo: nat): (r: Option<nat>)
    ensures r.Some? ==> r.value < |blocks| && Matches(env, blocks[r.value], sender, amount, memo)
    ensures r.Some? ==> forall j :: 0 <= j < r.value ==> !Matches(env, blocks[j], sender, amount, memo)
    ensures r.None? ==> forall j :: 0 <= j < |blocks| ==> !Matches(env, blocks[j], sender, amount, memo)
  {
    if |blocks| == 0 then None
    else if Matches(env, blocks[0], sender, amount, memo) then Some(0)
    else match FindMatch(env, blocks[1..], sender, amount, memo)
      case None => None
      case Some(i) => Some(i + 1)
  }

  /** The payment is verified exactly when some returned block matches. */
  function VerifyPayment(env: Env, blocks: seq<Block>, sender: Principal, amount: nat, memo: nat): (ok: bool)
    ensures ok <==> exists i :: 0 <= i < |blocks| && Matches(env, blocks[i], sender, amount, memo)
  {
    FindMatch(env, blocks, sender, amount, memo).Some?
  }

  ghost predicate Injective(hash: Address -> nat) {
    forall a, b :: hash(a) == hash(b) ==> a == b
  }

  /** With a collision-free hash, a match is an exact transfer from the sender's to the canister's address. */
  lemma MatchIsExactWhenHashInjective(env: Env, b: Block, sender: Principal, amount: nat, memo: nat)
    requires Injective(env.hash)
    ensures Matches(env, b, sender, amount, memo) <==>
      b.memo == memo && b.operation == Some(Transfer(env.addressOf(sender), env.addressOf(env.canister), amount))
  {
  }

  /**
   How an awaited call to the ledger came back: with its answer, or rejected.
   A rejected awaited call throws, which traps the calling update.
   */
  datatype Answer<+T> = Answered(value: T) | Rejected

  /** The arguments of a ledger transfer call. `amount` may go negative when the fee exceeds it. */
  datatype TransferArgs = TransferArgs(memo: nat, amount: int, fee: nat, to: Address)

  /** The ledger's answer to a transfer. */
  datatype TransferResult = TransferOk(height: nat) | TransferErr(reason: string)

  /** A refund: the transfer submitted and the result reported to the caller. */
  datatype Refund = Refund(args: TransferArgs, result: Reply<Message>)

  /** The transfer a refund of `amount` to `to` submits, given the ledger's current transfer fee. */
  function RefundTransfer(env: Env, to: Principal, amount: nat, transferFee: nat): (t: TransferArgs)
    ensures t.amount + t.fee == amount
    ensures t.fee == transferFee && t.memo == 0 && t.to == env.addressOf(to)
  {
    TransferArgs(0, amount - transferFee, transferFee, env.addressOf(to))
  }

  /**
   The refund as the canister writes it: the transfer is not awaited, so the
   error test looks at a pending promise and never fires; the refund always
   reports completion whatever the ledger answers.
   */
  function MakePaymentAsWritten(env: Env, to: Principal, amount: nat, transferFee: nat,
                                outcome: TransferResult): (p: Refund)
    ensures p.args.amount + p.args.fee == amount
    ensures p.args.fee == transferFee && p.args.memo == 0 && p.args.to == env.addressOf(to)
    ensures p.result == Ok(PaymentCompleted)
  {
    Refund(RefundTransfer(env, to, amount, transferFee), Ok(PaymentCompleted))
  }

  /**
   The refund with the transfer awaited: a ledger error becomes PaymentFailed
   carrying the error, anything else PaymentCompleted.
   */
  function MakePayment(env: Env, to: Principal, amount: nat, transferFee: nat,
                       outcome: TransferResult): (p: Refund)
    ensures p.args.amount + p.args.fee == amount
    ensures p.args.fee == transferFee && p.args.memo == 0 && p.args.to == env.addressOf(to)
    ensures p.result.Err? <==> outcome.TransferErr?
    ensures outcome.TransferErr? ==> p.result == Err(PaymentFailed(outcome.reason))
    ensures outcome.TransferOk? ==> p.result == Ok(PaymentCompleted)
  {
    var args := RefundTransfer(env, to, amount, transferFee);
    match outcome
    case TransferErr(reason) => Refund(args, Err(PaymentFailed(reason)))
    case TransferOk(_) => Refund(args, Ok(PaymentCompleted))
  }

  /** The refund as written reports success for a failed transfer; the corrected one reports the failure. */
  lemma RefundFailureHiddenAsWritten(env: Env, to: Principal, amount: nat, transferFee: nat, reason: string)
    ensures MakePaymentAsWritten(env, to, amount, transferFee, TransferErr(reason)).result == Ok(PaymentCompleted)
    ensures MakePayment(env, to, amount, transferFee, TransferErr(reason)).result == Err(PaymentFailed(reason))
    ensures MakePaymentAsWritten(env, to, amount, transferFee, TransferErr(reason)).args
         == MakePayment(env, to, amount, transferFee, TransferErr(reason)).args
  {
  }
}
