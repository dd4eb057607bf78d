/**
 Task records of the xCall auto-caller, their tables, and the goroutines that wait
 for transaction results. Call and Rollback records share the fields below; what only
 one of them has is the parameter `E`.
 */
module XCallStore {
  import opened Wrappers

  datatype TaskState =
    | StateNone | StateSending | StateSent | StateSkip | StateDone | StateError | StateNotApplicable

  /** A record without its primary key. `key` is the request id of a Call and the serial
      number of a Rollback. Heights are 0 until the block is known. */
  datatype Row<E> = Row(
    network: string, key: nat, state: TaskState, txId: string,
    blockHeight: int, blockId: string, finalized: bool, failure: string,
    eventHeight: int, eventBlockId: string, eventFinalized: bool,
    execResultCode: int, execResultMsg: string, data: E)

  datatype CallData = CallData(from: string, to: string, sn: nat, calldata: string)

  datatype RollbackData = RollbackData(
    from: string, to: string,
    triggerHeight: int, triggerBlockId: string, triggerFinalized: bool)

  type Call = Row<CallData>
  type Rollback = Row<RollbackData>

  /** A record in memory; `id` is 0 until it has been inserted. */
  datatype Record<E> = Record(id: nat, body: Row<E>)

  /** A table, every body ever inserted under a new key (key `k` is at `k - 1`), and the
      result goroutines: each owns a copy of a record, `None` once it has ended. */
  datatype Store<E> = Store(rows: map<nat, Row<E>>, issued: seq<Row<E>>, jobs: seq<Option<Record<E>>>)

  datatype CallError = EstimateError(reason: string, message: string) | OtherError(message: string)

  /** What submitting a transaction answers. */
  datatype Invoked = Submitted(txId: string) | Refused(error: CallError)

  /** What asking for a transaction result answers. */
  datatype TxResult =
    | NotAvailable
    | UnknownTransaction
    | Executed(blockHeight: int, blockId: string)
    | Reverted(error: CallError)

  const CALL_SKIPS: set<string> := {"InvalidRequestId"}
  const ROLLBACK_SKIPS: set<string> := {"InvalidSerialNum", "RollbackNotEnabled"}

  function EmptyStore<E>(): Store<E> {
    Store(map[], [], [])
  }

  // ----- table writes

  /** Saves under the record's key, or under the next free key when it has none. */
  function Save<E>(s: Store<E>, r: Record<E>): Store<E> {
    if r.id == 0 then s.(rows := s.rows[|s.issued| + 1 := r.body], issued := s.issued + [r.body])
    else s.(rows := s.rows[r.id := r.body])
  }

  /** The key the record has after `Save`. */
  function SavedId<E>(s: Store<E>, r: Record<E>): nat {
    if r.id == 0 then |s.issued| + 1 else r.id
  }

  predicate DoneIn<E>(s: Store<E>, id: nat) {
    id in s.rows && s.rows[id].state == StateDone
  }

  /** The guarded save: a row that is Done is left alone; a deleted row comes back. A
      failing save (`ok` false) changes nothing. */
  function SaveIfNotDone<E>(s: Store<E>, r: Record<E>, ok: bool): Store<E> {
    if !ok || (r.id != 0 && DoneIn(s, r.id)) then s else Save(s, r)
  }

  function SavedIfId<E>(s: Store<E>, r: Record<E>, ok: bool): nat {
    if ok then SavedId(s, r) else r.id
  }

  function Spawn<E>(s: Store<E>, r: Record<E>): Store<E> {
    s.(jobs := s.jobs + [Some(r)])
  }

  // ----- sending a transaction and following it

  function Failed<E>(r: Record<E>, error: CallError, skips: set<string>): Record<E> {
    if error.EstimateError? && error.reason in skips
    then r.(body := r.body.(state := StateSkip, txId := ""))
    else r.(body := r.body.(state := StateError, failure := error.message))
  }

  /** Submits the transaction of `r`; on success the record is Sending and a goroutine follows the result. */
  function Execute<E>(s: Store<E>, r: Record<E>, invoked: Invoked, skips: set<string>, ok: bool): Store<E> {
    match invoked
    case Refused(error) => SaveIfNotDone(s, Failed(r, error, skips), ok)
    case Submitted(txId) =>
      var sent := r.(body := r.body.(state := StateSending, txId := txId));
      Spawn(SaveIfNotDone(s, sent, ok), sent.(id := SavedIfId(s, sent, ok)))
  }

  function End<E>(s: Store<E>, j: nat): Store<E>
    requires j < |s.jobs|
  {
    s.(jobs := s.jobs[j := None])
  }

  /** One attempt of result goroutine `j`. */
  function Result<E>(s: Store<E>, j: nat, result: TxResult, invoked: Invoked, skips: set<string>, ok: bool): Store<E>
    requires j < |s.jobs| && s.jobs[j].Some?
  {
    var r := s.jobs[j].value;
    match result
    case NotAvailable => s
    case UnknownTransaction => Execute(End(s, j), r.(body := r.body.(txId := "")), invoked, skips, ok)
    case Reverted(error) => SaveIfNotDone(End(s, j), Failed(r, error, skips), ok)
    case Executed(height, blockId) =>
      SaveIfNotDone(End(s, j), r.(body := r.body.(state := StateSent, blockHeight := height, blockId := blockId)), ok)
  }

  // ----- queries

  /** Query by example: an empty network or a zero key matches everything. */
  predicate Matches<E>(row: Row<E>, network: string, key: nat) {
    && (network == "" || row.network == network)
    && (key == 0 || row.key == key)
  }

  /** `found` is the matching row with the lowest key. */
  ghost predicate IsFirst<E>(s: Store<E>, network: string, key: nat, found: Option<Record<E>>) {
    match found
    case None => forall id | id in s.rows :: !Matches(s.rows[id], network, key)
    case Some(r) =>
      && r.id in s.rows && s.rows[r.id] == r.body && Matches(r.body, network, key)
      && forall id | id in s.rows && Matches(s.rows[id], network, key) :: r.id <= id
  }

  /** `found` is a row of the network with the highest event height. */
  ghost predicate IsTop<E>(s: Store<E>, network: string, found: Option<Record<E>>) {
    match found
    case None => forall id | id in s.rows :: !Matches(s.rows[id], network, 0)
    case Some(r) =>
      && r.id in s.rows && s.rows[r.id] == r.body && Matches(r.body, network, 0)
      && forall id | id in s.rows && Matches(s.rows[id], network, 0) :: s.rows[id].eventHeight <= r.body.eventHeight
  }

  // ----- keys

  /** A copy of a record has a key that was issued for a record of its network. */
  ghost predicate Issued<E>(s: Store<E>, id: nat, body: Row<E>) {
    1 <= id <= |s.issued| && s.issued[id - 1].network == body.network
  }

  /** Every row and every goroutine's copy has an issued key; a copy whose insert failed has none. */
  ghost predicate KeysOk<E>(s: Store<E>) {
    && (forall id | id in s.rows :: Issued(s, id, s.rows[id]))
    && (forall j | 0 <= j < |s.jobs| && s.jobs[j].Some? ::
          s.jobs[j].value.id == 0 || Issued(s, s.jobs[j].value.id, s.jobs[j].value.body))
  }

  /** What a write may do between two drops: keys are only added, a Done row keeps its key and stays Done. */
  ghost predicate Keeps<E>(s: Store<E>, s': Store<E>) {
    && s.issued <= s'.issued
    && (forall id | DoneIn(s, id) :: DoneIn(s', id))
    && (forall id | DoneIn(s', id) :: DoneIn(s, id))
  }

  lemma SaveKeeps<E>(s: Store<E>, r: Record<E>, ok: bool)
    requires KeysOk(s) && r.body.state != StateDone
    requires r.id == 0 || Issued(s, r.id, r.body)
    ensures var s' := SaveIfNotDone(s, r, ok);
            KeysOk(s') && Keeps(s, s') && s'.jobs == s.jobs
    ensures var id := SavedIfId(s, r, ok); id == 0 || Issued(SaveIfNotDone(s, r, ok), id, r.body)
  {
  }

  lemma SpawnKeeps<E>(s: Store<E>, r: Record<E>)
    requires KeysOk(s) && (r.id == 0 || Issued(s, r.id, r.body))
    ensures KeysOk(Spawn(s, r)) && Keeps(s, Spawn(s, r))
  {
  }

  lemma ExecuteKeeps<E>(s: Store<E>, r: Record<E>, invoked: Invoked, skips: set<string>, ok: bool)
    requires KeysOk(s) && (r.id == 0 || Issued(s, r.id, r.body))
    ensures var s' := Execute(s, r, invoked, skips, ok);
            KeysOk(s') && Keeps(s, s')
  {
    match invoked
    case Refused(error) => SaveKeeps(s, Failed(r, error, skips), ok);
    case Submitted(txId) =>
      var sent := r.(body := r.body.(state := StateSending, txId := txId));
      SaveKeeps(s, sent, ok);
      SpawnKeeps(SaveIfNotDone(s, sent, ok), sent.(id := SavedIfId(s, sent, ok)));
  }

  /** Whatever a result goroutine does with its stale copy, no row leaves Done and none becomes Done. */
  lemma ResultKeeps<E>(s: Store<E>, j: nat, result: TxResult, invoked: Invoked, skips: set<string>, ok: bool)
    requires KeysOk(s) && j < |s.jobs| && s.jobs[j].Some?
    ensures var s' := Result(s, j, result, invoked, skips, ok);
            KeysOk(s') && Keeps(s, s')
  {
    var r := s.jobs[j].value;
    var ended := End(s, j);
    assert KeysOk(ended) && Keeps(s, ended);
    match result
    case NotAvailable =>
    case UnknownTransaction => ExecuteKeeps(ended, r.(body := r.body.(txId := "")), invoked, skips, ok);
    case Reverted(error) => SaveKeeps(ended, Failed(r, error, skips), ok);
    case Executed(height, blockId) =>
      SaveKeeps(ended, r.(body := r.body.(state := StateSent, blockHeight := height, blockId := blockId)), ok);
  }
}
