/** The conversation store and the idempotency table, in both implementations.
  *
  * Each store is a class over a mutable table; each method is proved against a function on tables,
  * and the lemmas say when the two implementations agree.
  */
module ConversationStore {
  import opened Wrappers
  import opened Machine

  datatype LockError = OptimisticLock(expected: int, actual: int)

  type Table = map<string, Snapshot>

  const SAVED_HISTORY := 20

  // --------------------------------------------------------- in-memory semantics

  function MemLoad(states: Table, conversation: string): Snapshot {
    if conversation in states then states[conversation] else Fresh(conversation)
  }

  function MemSave(states: Table, s: Snapshot, expected: nat): Result<Table, LockError> {
    var actual := if s.conversation in states then states[s.conversation].lockVersion else 0;
    if actual != expected then Err(OptimisticLock(expected, actual)) else Ok(states[s.conversation := s])
  }

  // -------------------------------------------------------------- SQL semantics

  /** `history` is a column the load never reads back. */
  function SqlLoad(rows: Table, conversation: string): Snapshot {
    if conversation in rows then rows[conversation].(history := []) else Fresh(conversation)
  }

  /** Version 0 inserts and loses to any existing row; any other version updates conditionally. */
  function SqlSave(rows: Table, s: Snapshot, expected: nat): Result<Table, LockError> {
    var row := s.(history := LastOf(s.history, SAVED_HISTORY));
    if expected == 0 then
      if s.conversation in rows then Err(OptimisticLock(expected, -1)) else Ok(rows[s.conversation := row])
    else if s.conversation in rows && rows[s.conversation].lockVersion == expected then
      Ok(rows[s.conversation := row])
    else
      Err(OptimisticLock(expected, -1))
  }

  /** Every snapshot is stored under its own conversation. */
  ghost predicate OwnKeys(states: Table) {
    forall c :: c in states ==> states[c].conversation == c
  }

  // ----------------------------------------------------------------- the classes

  class InMemoryConversationStore {
    var states: Table

    constructor ()
      ensures states == map[]
    {
      states := map[];
    }

    method Load(conversation: string) returns (s: Snapshot)
      ensures s == MemLoad(states, conversation)
    {
      if conversation in states {
        s := states[conversation];
      } else {
        s := Fresh(conversation);
      }
    }

    method Save(s: Snapshot, expected: nat) returns (r: Result<(), LockError>)
      modifies this
      ensures r.Ok? <==> MemSave(old(states), s, expected).Ok?
      ensures states == if r.Ok? then MemSave(old(states), s, expected).value else old(states)
      ensures r.Err? ==> r.error == MemSave(old(states), s, expected).error
      ensures var actual := if s.conversation in old(states) then old(states)[s.conversation].lockVersion else 0;
              if actual == expected then r.Ok? && states == old(states)[s.conversation := s]
              else r == Err(OptimisticLock(expected, actual)) && states == old(states)
    {
      var actual := 0;
      if s.conversation in states {
        actual := states[s.conversation].lockVersion;
      }
      if actual != expected {
        return Err(OptimisticLock(expected, actual));
      }
      states := states[s.conversation := s];
      return Ok(());
    }
  }

  class PostgresConversationStore {
    var rows: Table

    constructor ()
      ensures rows == map[]
    {
      rows := map[];
    }

    method Load(conversation: string) returns (s: Snapshot)
      ensures s == SqlLoad(rows, conversation)
    {
      if conversation !in rows {
        return Fresh(conversation);
      }
      var row := rows[conversation];
      s := Snapshot(row.conversation, row.state, row.lockVersion, row.turnCount, []);
    }

    method Save(s: Snapshot, expected: nat) returns (r: Result<(), LockError>)
      modifies this
      ensures r.Ok? <==> SqlSave(old(rows), s, expected).Ok?
      ensures rows == if r.Ok? then SqlSave(old(rows), s, expected).value else old(rows)
      ensures r.Err? ==> r.error == SqlSave(old(rows), s, expected).error
      ensures if (if expected == 0 then s.conversation !in old(rows)
                  else s.conversation in old(rows) && old(rows)[s.conversation].lockVersion == expected)
              then r.Ok? && s.conversation in rows && Core(rows[s.conversation]) == Core(s) && rows == old(rows)[s.conversation := rows[s.conversation]]
              else r == Err(OptimisticLock(expected, -1)) && rows == old(rows)
    {
      var history := LastOf(s.history, SAVED_HISTORY);
      var rowcount := 0;
      if expected == 0 {
        if s.conversation !in rows {
          rows, rowcount := rows[s.conversation := s.(history := history)], 1;
        }
        if rowcount == 0 {
          return Err(OptimisticLock(expected, -1));
        }
        return Ok(());
      }
      if s.conversation in rows && rows[s.conversation].lockVersion == expected {
        rows, rowcount := rows[s.conversation := s.(history := history)], 1;
      }
      if rowcount == 0 {
        return Err(OptimisticLock(expected, -1));
      }
      return Ok(());
    }
  }

  // ------------------------------------------------------------------ refinement

  /** What a reader of either store learns: everything but the history. */
  function Core(s: Snapshot): Snapshot {
    s.(history := [])
  }

  ghost predicate SameContents(rows: Table, states: Table) {
    rows.Keys == states.Keys && forall c :: c in rows ==> Core(rows[c]) == Core(states[c])
  }

  /** On equal contents the SQL save and the in-memory compare-and-set decide alike, except when
    * version 0 is expected of a row stored at version 0. */
  lemma SavesDecideAlikeExactly(rows: Table, states: Table, s: Snapshot, t: Snapshot, expected: nat)
    requires SameContents(rows, states) && Core(s) == Core(t)
    ensures (SqlSave(rows, s, expected).Ok? <==> MemSave(states, t, expected).Ok?) <==>
            !(expected == 0 && s.conversation in rows && rows[s.conversation].lockVersion == 0)
  {
    assert s.conversation == t.conversation;
    if s.conversation in rows {
      assert Core(rows[s.conversation]).lockVersion == Core(states[s.conversation]).lockVersion;
    }
  }

  ghost predicate Versioned(table: Table) {
    forall c :: c in table ==> table[c].lockVersion >= 1 && table[c].conversation == c
  }

  /** With stored versions at least 1, which every turn keeps (`Machine.FirstSaveIsVersioned`), the SQL
    * store refines the in-memory one: loads agree, saves decide alike, and contents stay equal. */
  lemma SqlRefinesInMemory(rows: Table, states: Table, s: Snapshot, t: Snapshot, expected: nat)
    requires SameContents(rows, states) && Versioned(rows) && Core(s) == Core(t)
    ensures forall c :: SqlLoad(rows, c) == Core(MemLoad(states, c))
    ensures SqlSave(rows, s, expected).Ok? <==> MemSave(states, t, expected).Ok?
    ensures SqlSave(rows, s, expected).Ok? ==>
              SameContents(SqlSave(rows, s, expected).value, MemSave(states, t, expected).value)
  {
    SavesDecideAlikeExactly(rows, states, s, t, expected);
    forall c ensures SqlLoad(rows, c) == Core(MemLoad(states, c)) {
      if c in rows {
        assert Core(rows[c]) == Core(states[c]);
      }
    }
    if SqlSave(rows, s, expected).Ok? {
      var rows', states' := SqlSave(rows, s, expected).value, MemSave(states, t, expected).value;
      forall c | c in rows' ensures Core(rows'[c]) == Core(states'[c]) {
        if c != s.conversation {
          assert Core(rows[c]) == Core(states[c]);
        }
      }
    }
  }

  /** Because a SQL load drops the history, the history a SQL save stores is the history of that one
    * turn; the in-memory store keeps the earlier records as well. */
  lemma SqlHistoryIsOneTurn(rows: Table, conversation: string, path: TurnPath)
    requires conversation in rows ==> rows[conversation].conversation == conversation
    ensures var loaded := SqlLoad(rows, conversation);
            |AfterTurn(loaded, path).history| == AfterTurn(loaded, path).lockVersion - loaded.lockVersion
    ensures |AfterTurn(SqlLoad(rows, conversation), path).history| <= 5
    ensures forall expected: nat ::
      var loaded := SqlLoad(rows, conversation);
      var saved := SqlSave(rows, AfterTurn(loaded, path), expected);
      saved.Ok? ==> conversation in saved.value && saved.value[conversation].history == AfterTurn(loaded, path).history
  {
    var loaded := SqlLoad(rows, conversation);
    HistoryCounts(loaded, TriggersOf(path));
    VersionCountsLegalSteps(loaded, TriggersOf(path));
    LegalStepsBounded(loaded.state, TriggersOf(path));
    hide AfterTurn;
    ShortHistoriesAreStoredWhole(AfterTurn(loaded, path).history);
  }

  lemma ShortHistoriesAreStoredWhole(history: seq<TransitionRecord>)
    requires |history| <= 5
    ensures LastOf(history, SAVED_HISTORY) == history
  {
  }

  lemma {:induction false} LegalStepsBounded(state: ConversationState, triggers: seq<Trigger>)
    ensures LegalSteps(state, triggers) <= |triggers|
    decreases triggers
  {
    if triggers != [] {
      LegalStepsBounded(NextState(state, triggers[0]), triggers[1..]);
    }
  }

  lemma {:induction false} HistoryCounts(s: Snapshot, triggers: seq<Trigger>)
    requires |s.history| + |triggers| <= HISTORY_LIMIT
    ensures |ApplyAll(s, triggers).history| == |s.history| + LegalSteps(s.state, triggers)
    decreases triggers
  {
    if triggers != [] {
      HistoryCounts(TryTransition(s, triggers[0]).0, triggers[1..]);
    }
  }
}

module IdempotencyStore {

  type Table = map<string, int>

  const TTL_SECONDS := 604800

  /** First claim wins; a claim at or past its expiry can be retaken. */
  function MemClaim(claims: Table, key: string, ttl: int, now: int): (bool, Table) {
    if key in claims && claims[key] > now then (false, claims) else (true, claims[key := now + ttl])
  }

  /** Delete the key if its expiry is strictly past, then insert unless it is there. */
  function SqlClaim(rows: Table, key: string, ttl: int, now: int): (bool, Table) {
    var kept := if key in rows && rows[key] < now then rows - {key} else rows;
    if key in kept then (false, kept) else (true, kept[key := now + ttl])
  }

  function Released(claims: Table, key: string): Table {
    claims - {key}
  }

  class InMemoryIdempotencyStore {
    var claims: Table

    constructor ()
      ensures claims == map[]
    {
      claims := map[];
    }

    method Claim(key: string, ttl: int, now: int) returns (won: bool)
      modifies this
      ensures (won, claims) == MemClaim(old(claims), key, ttl, now)
      ensures won <==> !(key in old(claims) && old(claims)[key] > now)
      ensures claims == if won then old(claims)[key := now + ttl] else old(claims)
    {
      if key in claims && claims[key] > now {
        return false;
      }
      claims := claims[key := now + ttl];
      return true;
    }

    /** The next delivery of the key wins its claim at once, and no other key's claim is decided differently. */
    method Release(key: string)
      modifies this
      ensures claims == Released(old(claims), key)
      ensures forall ttl, now :: MemClaim(claims, key, ttl, now).0
      ensures forall k, ttl, now :: k != key ==> MemClaim(claims, k, ttl, now).0 == MemClaim(old(claims), k, ttl, now).0
    {
      claims := claims - {key};
    }
  }

  class PostgresIdempotencyStore {
    var rows: Table

    constructor ()
      ensures rows == map[]
    {
      rows := map[];
    }

    method Claim(key: string, ttl: int, now: int) returns (won: bool)
      modifies this
      ensures (won, rows) == SqlClaim(old(rows), key, ttl, now)
      ensures won <==> !(key in old(rows) && old(rows)[key] >= now)
      ensures rows == if won then old(rows)[key := now + ttl] else old(rows)
    {
      if key in rows && rows[key] < now {
        rows := rows - {key};
      }
      won := key !in rows;
      if won {
        rows := rows[key := now + ttl];
      }
    }

    /** The next delivery of the key wins its claim at once, and no other key's claim is decided differently. */
    method Release(key: string)
      modifies this
      ensures rows == Released(old(rows), key)
      ensures forall ttl, now :: SqlClaim(rows, key, ttl, now).0
      ensures forall k, ttl, now :: k != key ==> SqlClaim(rows, k, ttl, now).0 == SqlClaim(old(rows), k, ttl, now).0
    {
      rows := rows - {key};
    }
  }

  /** The two claims agree, in outcome and in the table they leave, at every instant but one: when the
    * expiry is exactly `now` the in-memory claim succeeds and the SQL claim does not. */
  lemma ClaimsAgreeExceptAtExpiry(claims: Table, key: string, ttl: int, now: int)
    requires ttl > 0
    ensures MemClaim(claims, key, ttl, now) == SqlClaim(claims, key, ttl, now) <==> !(key in claims && claims[key] == now)
    ensures key in claims && claims[key] == now ==>
              MemClaim(claims, key, ttl, now).0 && !SqlClaim(claims, key, ttl, now).0
  {
    if key in claims && claims[key] < now {
      assert (claims - {key})[key := now + ttl] == claims[key := now + ttl];
    }
  }
}
