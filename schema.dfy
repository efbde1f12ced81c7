/** The transaction-receipt response shapes the frontend consumes. */
module Schema {
  import opened Wrappers
  import opened Json

  /** The action kinds the views distinguish; `Unlisted` stands for any other
      member of the enumeration, carrying its tag. */
  datatype ActionKind =
    | AddKey
    | CreateAccount
    | DelegateAction
    | DeleteAccount
    | DeleteKey
    | DeployContract
    | DeployGlobalContract
    | DeployGlobalContractByAccountId
    | DeterministicStateInit
    | FunctionCall
    | Stake
    | Transfer
    | UseGlobalContract
    | UseGlobalContractByAccountId
    | Unknown
    | Unlisted(tag: string)

  datatype ActionReceipt = ActionReceipt(
    action: ActionKind,
    args: Json,
    methodName: Option<string>,
    rlpHash: Option<string>)

  datatype OutcomeReceipt = OutcomeReceipt(
    executor: Option<string>,
    gasBurnt: Option<string>,
    logs: Option<seq<Json>>,
    result: Option<Json>,
    status: Option<bool>,
    tokensBurnt: Option<string>)

  datatype BlockReceipt = BlockReceipt(
    blockHash: Option<string>,
    blockHeight: Option<string>,
    blockTimestamp: Option<string>)

  /** A receipt and the receipts it produced. */
  datatype TxnReceipt = TxnReceipt(
    actions: seq<ActionReceipt>,
    block: BlockReceipt,
    outcome: OutcomeReceipt,
    predecessor: string,
    publicKey: string,
    receiptId: string,
    receipts: seq<TxnReceipt>,
    receiver: string)
}
