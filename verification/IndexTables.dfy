/**
 The indexer's tables for one contract: recording and applying chain events, and rolling back above a
 fork. Network reads, row ids and columns no rollback covers are not part of the tables.
 */
module IndexTables {
  import opened Primitives
  import opened Sequences
  import opened Guards
  import opened EventOrder

  /** One full configuration snapshot; a column is None until some event sets it. */
  datatype ConfigFields = ConfigFields(threshold: Option<nat>, numOwners: Option<int>, nonce: Option<nat>,
                                       parentNonce: Option<nat>,
                                       configNonce: Option<nat>, delegate: Option<PublicKey>, enabled: Option<bool>,
                                       owners: Option<seq<PublicKey>>)

  const NO_FIELDS: ConfigFields := ConfigFields(None, None, None, None, None, None, None, None)

  /** `order` is the event's position in the batch that ingested it. */
  datatype ConfigRow = ConfigRow(block: nat, order: nat, fields: ConfigFields)

  datatype MemberRow = MemberRow(owner: PublicKey, added: bool, index: Option<nat>, block: nat)

  datatype ProposalRow = ProposalRow(createdAt: nat, proposer: PublicKey, memo: Option<string>,
                                     receivers: seq<Receiver>, toAddress: Option<PublicKey>)

  datatype ApprovalRow = ApprovalRow(count: nat, block: nat)

  datatype ExecutionRow = ExecutionRow(block: nat, txHash: Option<nat>)

  /** The idempotency key of an event: everything but its block hash and memo. */
  datatype Fingerprint = Fingerprint(event: Event, height: nat, txHash: Option<nat>)

  datatype Tables = Tables(
    headers: map<nat, nat>,
    raw: set<Fingerprint>,
    configs: seq<ConfigRow>,
    members: seq<MemberRow>,
    proposals: map<Proposal, ProposalRow>,
    approvals: map<VoteKey, ApprovalRow>,
    executions: map<Proposal, ExecutionRow>)

  const EMPTY_TABLES: Tables := Tables(map[], {}, [], [], map[], map[], map[])

  function FingerprintOf(e: ChainEvent): Fingerprint { Fingerprint(e.event, e.height, e.txHash) }

  // ---- configuration snapshots ----

  predicate Newer(r: ConfigRow, s: ConfigRow) { r.block > s.block || (r.block == s.block && r.order > s.order) }

  /** The newest row by block, then by order. */
  function Latest(configs: seq<ConfigRow>): (r: Option<ConfigRow>)
  {
    if configs == [] then None
    else
      var best, last := Latest(configs[..|configs| - 1]), configs[|configs| - 1];
      if best.None? || !Newer(best.value, last) then Some(last) else best
  }

  function OrElse<T>(change: Option<T>, before: Option<T>): Option<T> { if change.Some? then change else before }

  function Overlay(changes: ConfigFields, before: ConfigFields): (r: ConfigFields)
  {
    ConfigFields(OrElse(changes.threshold, before.threshold), OrElse(changes.numOwners, before.numOwners),
                 OrElse(changes.nonce, before.nonce),
                 OrElse(changes.parentNonce, before.parentNonce), OrElse(changes.configNonce, before.configNonce),
                 OrElse(changes.delegate, before.delegate), OrElse(changes.enabled,
                                                                   before.enabled), OrElse(changes.owners,
                                                                       before.owners))
  }

  /** Copies the latest row forward with the changes laid over it. */
  function AppendSnapshot(configs: seq<ConfigRow>, block: nat, order: nat, changes: ConfigFields): (r: seq<ConfigRow>)
  {
    var latest := Latest(configs);
    configs + [ConfigRow(block, order, Overlay(changes, if latest.Some? then latest.value.fields else NO_FIELDS))]
  }

  // ---- applying one event ----

  /** The columns an event changes, if it appends a snapshot. */
  function ChangesBy(t: Tables, e: Event): (c: Option<ConfigFields>)
  {
    match e
    case Setup(owners, threshold, numOwners, _) =>
      Some(NO_FIELDS.(threshold := Some(threshold), numOwners := Some(numOwners), nonce := Some(0), parentNonce :=
                      Some(0),
                      configNonce := Some(0), owners := Some(owners), enabled := Some(true)))
    case Execution(h, _, _) => if h in t.proposals then Some(NO_FIELDS.(nonce := Some(h.nonce))) else None
    case OwnerChange(_, _, _, newNumOwners, newOwners, configNonce) =>
      Some(NO_FIELDS.(numOwners := Some(newNumOwners), owners := Some(newOwners), configNonce := Some(configNonce)))
    case ThresholdChange(_, _, newThreshold, configNonce) =>
      Some(NO_FIELDS.(threshold := Some(newThreshold), configNonce := Some(configNonce)))
    case Delegate(_, delegate) => Some(NO_FIELDS.(delegate := Some(delegate)))
    case EnableChildMultiSig(_, _, enabled, configNonce) =>
      Some(NO_FIELDS.(enabled := Some(enabled == 1), configNonce := Some(configNonce)))
    case _ => None
  }

  function NewMembers(e: ChainEvent): (ms: seq<MemberRow>)
  {
    match e.event
    case SetupOwner(owner, index) => if owner == EMPTY_KEY then [] else [MemberRow(owner, true, Some(index), e.height)]
    case OwnerChange(_, owner, added, _, _, _) => [MemberRow(owner, added, None, e.height)]
    case _ => []
  }

  predicate HasTarget(txType: nat) { txType == ADD_OWNER || txType == REMOVE_OWNER || txType == SET_DELEGATE }

  function ApplyToProposals(ps: map<Proposal, ProposalRow>, e: ChainEvent): (r: map<Proposal, ProposalRow>)
  {
    match e.event
    case Proposed(h, proposer) =>
      if h in ps then ps[h := ps[h].(memo := e.memo)] else ps[h := ProposalRow(e.height, proposer, e.memo, [], None)]
    case ReceiverSlot(h, receiver, amount) =>
      if h !in ps || receiver == EMPTY_KEY then ps
      else
        var target := if ps[h].receivers == [] && HasTarget(h.txType) then Some(receiver) else ps[h].toAddress;
        ps[h := ps[h].(receivers := ps[h].receivers + [Receiver(receiver, amount)], toAddress := target)]
    case _ => ps
  }

  function ApplyEvent(t: Tables, e: ChainEvent, order: nat): (r: Tables)
  {
    var changes := ChangesBy(t, e.event);
    t.(configs := if changes.Some? then AppendSnapshot(t.configs, e.height, order, changes.value) else t.configs,
       members := t.members + NewMembers(e),
       proposals := ApplyToProposals(t.proposals, e),
       approvals := if e.event.Approval? && e.event.hash in t.proposals
                    then t.approvals[VoteKey(e.event.hash, e.event.approver) :=
                                     ApprovalRow(e.event.approvalCount, e.height)] else t.approvals,
       executions := if e.event.Execution? && e.event.hash in t.proposals
                     then t.executions[e.event.hash := ExecutionRow(e.height, e.txHash)] else t.executions)
  }

  /** Writes the block header, unless that height has one, and the event marker. */
  function RecordEvent(t: Tables, e: ChainEvent): (r: Tables)
  {
    t.(headers := if e.blockHash.Some? && e.height !in t.headers then t.headers[e.height := e.blockHash.value]
       else t.headers,
       raw := t.raw + {FingerprintOf(e)})
  }

  /** An event already recorded changes nothing. */
  function Ingest(t: Tables, e: ChainEvent, order: nat): (r: Tables)
  {
    if FingerprintOf(e) in t.raw then t else ApplyEvent(RecordEvent(t, e), e, order)
  }

  /** Ingests a batch whose first event has position `base`. */
  function IngestAll(t: Tables, es: seq<ChainEvent>, base: nat): (r: Tables) { Fold(t, es, base, Ingest) }

  // ---- rollback ----

  function RowsUpTo(rows: seq<ConfigRow>, fork: int): (r: seq<ConfigRow>)
  {
    if rows == [] then []
    else if rows[|rows| - 1].block > fork then RowsUpTo(rows[..|rows| - 1], fork)
    else RowsUpTo(rows[..|rows| - 1], fork) + [rows[|rows| - 1]]
  }

  function MembersUpTo(rows: seq<MemberRow>, fork: int): (r: seq<MemberRow>)
  {
    if rows == [] then []
    else if rows[|rows| - 1].block > fork then MembersUpTo(rows[..|rows| - 1], fork)
    else MembersUpTo(rows[..|rows| - 1], fork) + [rows[|rows| - 1]]
  }

  /** Deletes every row tagged above the fork; a deleted proposal takes its approvals and execution with it. */
  function Rollback(t: Tables, fork: int): (r: Tables)
  {
    var kept := map h | h in t.proposals && t.proposals[h].createdAt <= fork :: t.proposals[h];
    Tables(
      (map h | h in t.headers && h <= fork :: t.headers[h]),
      (set f | f in t.raw && f.height <= fork),
      RowsUpTo(t.configs, fork),
      MembersUpTo(t.members, fork),
      kept,
      (map k | k in t.approvals && t.approvals[k].block <= fork && k.hash in kept :: t.approvals[k]),
      (map h | h in t.executions && t.executions[h].block <= fork && h in kept :: t.executions[h]))
  }
}
