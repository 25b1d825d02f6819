/** The clients table with its unique index on token ids: the migration that
    filled the index, the statements that keep it, and authentication, which
    looks in the index first and then tries every hash. */
module TokenIndex {
  import opened Basics
  import opened Sets

  datatype Client = Client(hash: string, tokenId: string)

  type Table = map<int, Client>

  /** Whether a hash was made from a token. */
  type Matcher = (string, string) -> bool

  const ID_LENGTH := 16

  function TokenId(token: string): string {
    if |token| >= ID_LENGTH then token[..ID_LENGTH] else token
  }

  /** The first 16 bytes, or all if there are fewer. */
  lemma TokenIdIsPrefix(token: string)
    ensures |TokenId(token)| == (if |token| < 16 then |token| else 16)
    ensures forall i :: 0 <= i < |TokenId(token)| ==> TokenId(token)[i] == token[i]
  {
  }

  predicate UniqueIds(t: Table) {
    forall a, b :: a in t && b in t && t[a].tokenId == t[b].tokenId ==> a == b
  }

  // The migration.

  predicate IsDigit(c: char) { '0' <= c <= '9' }

  function Digits(n: nat): (s: string)
    ensures |s| >= 1 && forall i :: 0 <= i < |s| ==> IsDigit(s[i])
    ensures 10 <= n ==> |s| >= 2
  {
    if n < 10 then ['0' + n as char] else Digits(n / 10) + ['0' + (n % 10) as char]
  }

  function Decimal(n: int): string {
    if n < 0 then "-" + Digits(-n) else Digits(n)
  }

  lemma {:induction false} DigitsInjective(a: nat, b: nat)
    requires Digits(a) == Digits(b)
    ensures a == b
  {
    if 10 <= a && 10 <= b {
      var s := Digits(a);
      assert s[..|s| - 1] == Digits(a / 10) && s[..|s| - 1] == Digits(b / 10);
      assert s[|s| - 1] == '0' + (a % 10) as char && s[|s| - 1] == '0' + (b % 10) as char;
      DigitsInjective(a / 10, b / 10);
    } else if a < 10 && b < 10 {
      assert Digits(a)[0] == '0' + a as char && Digits(b)[0] == '0' + b as char;
    }
  }

  lemma DecimalInjective(a: int, b: int)
    requires Decimal(a) == Decimal(b)
    ensures a == b
  {
    assert Decimal(a)[0] == Decimal(b)[0];
    if a < 0 && b < 0 {
      assert Decimal(a)[1..] == Digits(-a) && Decimal(b)[1..] == Digits(-b);
      DigitsInjective(-a, -b);
    } else if 0 <= a && 0 <= b {
      DigitsInjective(a, b);
    }
  }

  /** The number that decimal digits stand for. */
  function Read(digits: string): int {
    if digits == "" then 0 else 10 * Read(digits[..|digits| - 1]) + (digits[|digits| - 1] as int - 48)
  }

  lemma {:induction false} DigitsAreRead(n: nat)
    ensures Read(Digits(n)) == n && (0 < n ==> Digits(n)[0] != '0')
  {
    if n < 10 {
      assert Digits(n) == ['0' + n as char] && Digits(n)[..0] == "";
    } else {
      var d := Digits(n);
      DigitsAreRead(n / 10);
      assert d[..|d| - 1] == Digits(n / 10);
    }
  }

  function LegacyId(id: int): string { "legacy-" + Decimal(id) }

  lemma LegacyIdInjective(a: int, b: int)
    requires LegacyId(a) == LegacyId(b)
    ensures a == b
  {
    assert LegacyId(a)[7..] == Decimal(a) && LegacyId(b)[7..] == Decimal(b);
    DecimalInjective(a, b);
  }

  /** A row before the migration, when the token id could be NULL. */
  datatype OldClient = OldClient(hash: string, tokenId: Option<string>)

  predicate Blank(c: OldClient) { c.tokenId.None? || c.tokenId.value == "" }

  /** The old unique index, which any number of NULLs satisfies. */
  predicate OldIndex(rows: map<int, OldClient>) {
    forall a, b :: a in rows && b in rows && rows[a].tokenId.Some? && rows[a].tokenId == rows[b].tokenId ==> a == b
  }

  function Migrate(rows: map<int, OldClient>): Table {
    map id | id in rows :: Client(rows[id].hash, if Blank(rows[id]) then LegacyId(id) else rows[id].tokenId.value)
  }

  /** The upgrade keeps each client with its hash, so that its row accepts the same
      tokens as before, and its token id; a client without one gets "legacy-" and
      its number, in decimal. */
  lemma UpgradeKeepsTokens(rows: map<int, OldClient>, id: int, token: string, matches: Matcher)
    ensures Migrate(rows).Keys == rows.Keys
    ensures id in rows ==> (Matches(Migrate(rows), id, token, matches) <==> matches(rows[id].hash, token))
    ensures id in rows && rows[id].tokenId.Some? && rows[id].tokenId.value != "" ==>
              Migrate(rows)[id].tokenId == rows[id].tokenId.value
    ensures id in rows && 0 <= id && (rows[id].tokenId == None || rows[id].tokenId == Some("")) ==>
              var made := Migrate(rows)[id].tokenId;
              8 <= |made| && made[..7] == "legacy-" && Read(made[7..]) == id
  {
    if 0 <= id {
      DigitsAreRead(id);
      assert ("legacy-" + Digits(id))[7..] == Digits(id);
    }
  }

  /** Row b already carries the id that the migration would make up for row a. */
  predicate Clash(rows: map<int, OldClient>, a: int, b: int) {
    && a in rows && b in rows && Blank(rows[a])
    && !Blank(rows[b]) && rows[b].tokenId.value == LegacyId(a)
  }

  /** The new index can be created exactly if no row clashes with another. */
  lemma MigrationKeepsIndexIff(rows: map<int, OldClient>)
    requires OldIndex(rows)
    ensures UniqueIds(Migrate(rows)) <==> forall a, b :: !Clash(rows, a, b)
  {
    var t := Migrate(rows);
    forall a, b | Clash(rows, a, b) ensures !UniqueIds(t) {
      assert t[a].tokenId == t[b].tokenId && a != b;
    }
    if forall a, b :: !Clash(rows, a, b) {
      forall a, b | a in t && b in t && t[a].tokenId == t[b].tokenId ensures a == b {
        assert !Clash(rows, a, b) && !Clash(rows, b, a);
        if Blank(rows[a]) && Blank(rows[b]) {
          LegacyIdInjective(a, b);
        }
      }
    }
  }

  predicate IsHex(s: string) {
    forall i :: 0 <= i < |s| ==> '0' <= s[i] <= '9' || 'a' <= s[i] <= 'f'
  }

  lemma LegacyIdIsNotHex(id: int)
    ensures !IsHex(LegacyId(id))
  {
    assert LegacyId(id)[0] == 'l';
  }

  lemma IssuedIdsDoNotClash(rows: map<int, OldClient>, a: int, b: int)
    requires forall id :: id in rows && !Blank(rows[id]) ==> IsHex(rows[id].tokenId.value)
    ensures !Clash(rows, a, b)
  {
    LegacyIdIsNotHex(a);
  }

  // The statements of the migration, which run in order and in one transaction.

  datatype Statement = CopyRows | DropOld | RenameCopy | CreateIndex

  /** The tables on the way; the token sessions refer to the table of clients. */
  datatype Tables =
    | Old(rows: map<int, OldClient>, sessions: map<string, int>)
    | Copied(rows: map<int, OldClient>, copy: Table, sessions: map<string, int>)
    | Dropped(copy: Table, sessions: map<string, int>)
    | Renamed(clients: Table, sessions: map<string, int>)
    | Indexed(clients: Table, sessions: map<string, int>)

  /** Some token session, expired or not, is a client's. */
  predicate InUse<C>(rows: map<int, C>, sessions: map<string, int>) {
    exists k :: k in sessions && sessions[k] in rows
  }

  /** Dropping a table deletes its rows, which the foreign key may refuse; the
      unique index may refuse to be created. */
  function Execute(t: Tables, statement: Statement): Option<Tables> {
    match (statement, t)
    case (CopyRows, Old(rows, sessions)) => Some(Copied(rows, Migrate(rows), sessions))
    case (DropOld, Copied(rows, copy, sessions)) =>
      if InUse(rows, sessions) then None else Some(Dropped(copy, sessions))
    case (RenameCopy, Dropped(copy, sessions)) => Some(Renamed(copy, sessions))
    case (CreateIndex, Renamed(clients, sessions)) =>
      if UniqueIds(clients) then Some(Indexed(clients, sessions)) else None
    case _ => None
  }

  function ExecuteAll(t: Tables, statements: seq<Statement>): Option<Tables>
    decreases |statements|
  {
    if statements == [] then Some(t)
    else
      match Execute(t, statements[0])
      case None => None
      case Some(next) => ExecuteAll(next, statements[1..])
  }

  const UPGRADE := [CopyRows, DropOld, RenameCopy, CreateIndex]

  ghost predicate CanUpgrade(rows: map<int, OldClient>, sessions: map<string, int>) {
    !InUse(rows, sessions) && forall a, b :: !Clash(rows, a, b)
  }

  /** The upgrade goes through exactly if no token session refers to a client and
      no row clashes with another. */
  lemma UpgradeSucceedsIff(rows: map<int, OldClient>, sessions: map<string, int>)
    requires OldIndex(rows)
    ensures CanUpgrade(rows, sessions) ==>
              ExecuteAll(Old(rows, sessions), UPGRADE) == Some(Indexed(Migrate(rows), sessions))
    ensures !CanUpgrade(rows, sessions) ==> ExecuteAll(Old(rows, sessions), UPGRADE) == None
    ensures CanUpgrade(rows, sessions) ==> UniqueIds(Migrate(rows)) && Migrate(rows).Keys == rows.Keys
  {
    MigrationKeepsIndexIff(rows);
    var s1, s2, s3, s4 := UPGRADE[1..], UPGRADE[2..], UPGRADE[3..], UPGRADE[4..];
    assert UPGRADE[0] == CopyRows && s1[0] == DropOld && s2[0] == RenameCopy && s3[0] == CreateIndex;
    assert s1[1..] == s2 && s2[1..] == s3 && s3[1..] == s4 == [];
    var copy := Migrate(rows);
    hide Migrate, UniqueIds, InUse, Clash;
    assert ExecuteAll(Renamed(copy, sessions), s3) == if UniqueIds(copy) then Some(Indexed(copy, sessions)) else None;
    assert ExecuteAll(Dropped(copy, sessions), s2) == ExecuteAll(Renamed(copy, sessions), s3);
    assert ExecuteAll(Copied(rows, copy, sessions), s1)
        == if InUse(rows, sessions) then None else ExecuteAll(Dropped(copy, sessions), s2);
    assert ExecuteAll(Old(rows, sessions), UPGRADE) == ExecuteAll(Copied(rows, copy, sessions), s1);
  }

  /** If the ids in use were cut from issued tokens, it goes through exactly if no
      token session refers to a client; no id is blank afterwards. */
  lemma UpgradeOfIssuedIdsIff(rows: map<int, OldClient>, sessions: map<string, int>)
    requires OldIndex(rows)
    requires forall id :: id in rows && !Blank(rows[id]) ==> IsHex(rows[id].tokenId.value)
    ensures ExecuteAll(Old(rows, sessions), UPGRADE).Some? <==> !InUse(rows, sessions)
    ensures forall id :: id in rows ==> Migrate(rows)[id].tokenId != ""
  {
    forall a, b ensures !Clash(rows, a, b) {
      IssuedIdsDoNotClash(rows, a, b);
    }
    UpgradeSucceedsIff(rows, sessions);
  }

  // Starting the server on a disk that the upgrade is still missing on.

  /** The schema version is marked dirty while a migration runs. */
  datatype Disk = Disk(version: nat, dirty: bool, tables: Tables)

  const LATEST := 9

  /** The last version at or below this one that there is a migration for. */
  function Floor(version: nat): nat { if version == 8 then 7 else version }

  /** A start clears the dirty mark, and then upgrades if the version is behind. */
  function Start(d: Disk): (Disk, bool) {
    if Floor(d.version) < LATEST then
      match ExecuteAll(d.tables, UPGRADE)
      case Some(tables) => (Disk(LATEST, false, tables), true)
      case None => (Disk(LATEST, true, d.tables), false)
    else (d.(dirty := false), true)
  }

  function Starts(d: Disk, n: nat): Disk {
    if n == 0 then d else Start(Starts(d, n - 1)).0
  }

  /** If the first start cannot upgrade, it fails; but from the second start on
      the server runs, on the old tables, and never upgrades them. */
  lemma {:induction false} FailedUpgradeIsSkipped(d: Disk, n: nat)
    requires d.version in {7, 8} && d.tables.Old? && OldIndex(d.tables.rows) && 1 <= n
    ensures Start(d).1 <==> CanUpgrade(d.tables.rows, d.tables.sessions)
    ensures !Start(d).1 ==> Starts(d, n) == Disk(LATEST, n == 1, d.tables) && Start(Starts(d, n)).1
  {
    hide ExecuteAll, OldIndex, CanUpgrade;
    UpgradeSucceedsIff(d.tables.rows, d.tables.sessions);
    if n > 1 { FailedUpgradeIsSkipped(d, n - 1); } else { assert Starts(d, 0) == d; }
  }

  /** It takes one client, with an issued token, and one token session. */
  lemma LoggedInClientStopsUpgrade(client: OldClient, session: string)
    ensures var d := Disk(8, false, Old(map[1 := client], map[session := 1]));
            !Start(d).1 && Start(Start(d).0) == (Disk(LATEST, false, d.tables), true)
  {
    var d := Disk(8, false, Old(map[1 := client], map[session := 1]));
    assert session in d.tables.sessions && InUse(d.tables.rows, d.tables.sessions);
    UpgradeSucceedsIff(d.tables.rows, d.tables.sessions);
  }

  // Authentication.

  predicate Matches(t: Table, id: int, token: string, matches: Matcher) {
    id in t && matches(t[id].hash, token)
  }

  predicate NoMatch(t: Table, token: string, matches: Matcher) {
    forall id :: id in t ==> !matches(t[id].hash, token)
  }

  ghost predicate AtMostOneMatch(t: Table, token: string, matches: Matcher) {
    forall a, b :: Matches(t, a, token, matches) && Matches(t, b, token, matches) ==> a == b
  }

  /** What trying every hash may find; which match it finds first is left open. */
  ghost predicate IsScanResult(t: Table, token: string, matches: Matcher, r: Option<int>) {
    match r
    case Some(id) => Matches(t, id, token, matches)
    case None => NoMatch(t, token, matches)
  }

  /** The order of the scan shows exactly if two hashes match the same token. */
  lemma ScanIsDeterminedIff(t: Table, token: string, matches: Matcher)
    ensures (forall r, s :: IsScanResult(t, token, matches, r) && IsScanResult(t, token, matches, s) ==> r == s)
       <==> AtMostOneMatch(t, token, matches)
  {
    if !AtMostOneMatch(t, token, matches) {
      var a, b :| Matches(t, a, token, matches) && Matches(t, b, token, matches) && a != b;
      assert IsScanResult(t, token, matches, Some(a)) && IsScanResult(t, token, matches, Some(b));
      assert Some(a) != Some(b);
    }
  }

  /** The row that the index gives for a token is the token's. */
  predicate IndexedMatch(t: Table, id: int, token: string, matches: Matcher) {
    TokenId(token) != "" && Matches(t, id, token, matches) && t[id].tokenId == TokenId(token)
  }

  method ClientByTokenId(t: Table, tokenId: string) returns (r: Option<int>)
    ensures match r
            case Some(id) => id in t && t[id].tokenId == tokenId
            case None => forall id :: id in t ==> t[id].tokenId != tokenId
  {
    var rest := t.Keys;
    while rest != {}
      invariant rest <= t.Keys && forall id :: id in t.Keys - rest ==> t[id].tokenId != tokenId
    {
      ghost var some := Element(rest);
      var id :| id in rest;
      if t[id].tokenId == tokenId {
        return Some(id);
      }
      rest := rest - {id};
    }
    r := None;
  }

  /** A loop over a map, in whatever order the map is traversed. */
  method Scan(t: Table, token: string, matches: Matcher) returns (r: Option<int>)
    ensures IsScanResult(t, token, matches, r)
  {
    var rest := t.Keys;
    while rest != {}
      invariant rest <= t.Keys && forall id :: id in t.Keys - rest ==> !matches(t[id].hash, token)
    {
      ghost var some := Element(rest);
      var id :| id in rest;
      if matches(t[id].hash, token) {
        return Some(id);
      }
      rest := rest - {id};
    }
    r := None;
  }

  /** Vanished: the hash matched, but the client was gone when it was fetched. */
  datatype Outcome = Accepted(id: int) | Vanished(id: int) | Rejected {
    function Match(): Option<int> { if Rejected? then None else Some(id) }
  }

  /** The agents' login.  Its three queries may meet three states of the table:
      t when the index is asked, scanned when all hashes are read, and later when
      a client found by the scan is fetched. */
  method AuthenticateToken(t: Table, scanned: Table, later: Table, token: string, matches: Matcher) returns (r: Outcome)
    requires UniqueIds(t)
    ensures forall id :: IndexedMatch(t, id, token, matches) ==> r == Accepted(id)
    ensures (exists id :: IndexedMatch(t, id, token, matches))
         || (IsScanResult(scanned, token, matches, r.Match()) && (r.Accepted? ==> r.id in later))
    ensures r.Vanished? ==> r.id !in later
    ensures t == scanned ==> IsScanResult(t, token, matches, r.Match())
    ensures t == scanned && AtMostOneMatch(t, token, matches) ==>
              forall s :: IsScanResult(t, token, matches, s) ==> s == r.Match()
  {
    ScanIsDeterminedIff(t, token, matches);
    var tokenId := TokenId(token);
    if tokenId != "" {
      var c := ClientByTokenId(t, tokenId);
      if c.Some? && matches(t[c.value].hash, token) {
        assert IsScanResult(t, token, matches, Accepted(c.value).Match());
        assert IndexedMatch(t, c.value, token, matches);
        return Accepted(c.value);
      }
    }
    var s := Scan(scanned, token, matches);
    if s.None? {
      return Rejected;
    }
    return if s.value in later then Accepted(s.value) else Vanished(s.value);
  }

  // The GUI's login, which trims the token first.

  predicate IsSpace(c: char) {
    c == ' ' || '\t' <= c <= '\r'
  }

  function TrimLeft(s: string): string {
    if s != "" && IsSpace(s[0]) then TrimLeft(s[1..]) else s
  }

  function TrimRight(s: string): string {
    if s != "" && IsSpace(s[|s| - 1]) then TrimRight(s[..|s| - 1]) else s
  }

  function TrimSpace(s: string): string { TrimRight(TrimLeft(s)) }

  /** Space, tab, line feed, vertical tab, form feed and carriage return. */
  predicate White(c: char) { c in [' ', '\t', '\n', '\U{0B}', '\U{0C}', '\r'] }

  predicate AllSpace(s: string) { forall i :: 0 <= i < |s| ==> White(s[i]) }

  lemma {:induction false} TrimLeftDrops(left: string, s: string)
    requires AllSpace(left) && (s == "" || !White(s[0]))
    ensures TrimLeft(left + s) == s
  {
    if left == "" {
      assert left + s == s;
    } else {
      assert (left + s)[1..] == left[1..] + s;
      TrimLeftDrops(left[1..], s);
    }
  }

  lemma {:induction false} TrimRightDrops(s: string, right: string)
    requires AllSpace(right) && (s == "" || !White(s[|s| - 1]))
    ensures TrimRight(s + right) == s
    decreases |right|
  {
    if right == "" {
      assert s + right == s;
    } else {
      var r := right[..|right| - 1];
      assert (s + right)[..|s + right| - 1] == s + r;
      TrimRightDrops(s, r);
    }
  }

  /** Pasting a token with spaces around it does not matter. */
  lemma TrimSpaceFinds(left: string, token: string, right: string)
    requires AllSpace(left) && AllSpace(right)
    requires token != "" && !White(token[0]) && !White(token[|token| - 1])
    ensures TrimSpace(left + token + right) == token
  {
    assert left + token + right == left + (token + right);
    TrimLeftDrops(left, token + right);
    TrimRightDrops(token, right);
  }

  method ClientByToken(t: Table, scanned: Table, later: Table, token: string, matches: Matcher) returns (r: Outcome)
    requires UniqueIds(t)
    ensures TrimSpace(token) == "" ==> r == Rejected
    ensures forall id :: IndexedMatch(t, id, TrimSpace(token), matches) ==> r == Accepted(id)
    ensures TrimSpace(token) != "" ==>
              || (exists id :: IndexedMatch(t, id, TrimSpace(token), matches))
              || (IsScanResult(scanned, TrimSpace(token), matches, r.Match()) && (r.Accepted? ==> r.id in later))
    ensures r.Vanished? ==> r.id !in later
    ensures TrimSpace(token) != "" && t == scanned ==> IsScanResult(t, TrimSpace(token), matches, r.Match())
  {
    var trimmed := TrimSpace(token);
    if trimmed == "" {
      return Rejected;
    }
    r := AuthenticateToken(t, scanned, later, trimmed, matches);
  }
}

/** The tokens that the GUI issues: new clients, new tokens, deleted clients, and
    the token sessions that clients open in it. */
module IssuedTokens {
  import opened Basics
  import opened TokenIndex
  import AgentRegistry

  /** A salted hash. */
  type Hasher = (string, int) -> string

  /** The table, the last id given out, the token last issued to each client that
      was ever issued one here, and the client of each token session.  A session
      stays in the table when it expires, until it is swept or looked up. */
  datatype State = State(rows: Table, lastId: int, issued: map<int, string>, sessions: map<string, int>)

  datatype Step =
    | New(token: string, salt: int)
    | Regenerate(id: int, token: string, salt: int)
    | Delete(id: int)
    | LogIn(session: string, id: int)
    | EndSession(session: string)

  predicate TakenByOther(t: Table, id: int, tokenId: string) {
    exists other :: other in t && other != id && t[other].tokenId == tokenId
  }

  /** The foreign key of the token sessions: some session, expired or not, is the client's. */
  predicate Referred(sessions: map<string, int>, id: int) {
    exists k :: k in sessions && sessions[k] == id
  }

  /** A statement that violates the unique index or the foreign key does nothing. */
  function Next(s: State, step: Step, hash: Hasher): State {
    match step
    case New(token, salt) =>
      var id := s.lastId + 1;
      if TakenByOther(s.rows, id, TokenId(token)) then s
      else State(s.rows[id := Client(hash(token, salt), TokenId(token))], id, s.issued[id := token], s.sessions)
    case Regenerate(id, token, salt) =>
      if id !in s.rows || TakenByOther(s.rows, id, TokenId(token)) then s
      else s.(rows := s.rows[id := Client(hash(token, salt), TokenId(token))], issued := s.issued[id := token])
    case Delete(id) =>
      if Referred(s.sessions, id) then s else s.(rows := s.rows - {id}, issued := s.issued - {id})
    case LogIn(session, id) =>
      if session in s.sessions || id !in s.rows then s else s.(sessions := s.sessions[session := id])
    case EndSession(session) => s.(sessions := s.sessions - {session})
  }

  function Run(s: State, steps: seq<Step>, hash: Hasher): State
    decreases |steps|
  {
    if steps == [] then s else Run(Next(s, steps[0], hash), steps[1..], hash)
  }

  predicate IsToken(token: string) { |token| == 64 && IsHex(token) }

  predicate IssuesToken(step: Step) { step.New? || step.Regenerate? }

  predicate IssuesTokens(step: Step) { IssuesToken(step) ==> IsToken(step.token) }

  /** Hashing is made for matching. */
  ghost predicate Sound(hash: Hasher, matches: Matcher) {
    forall token, salt :: matches(hash(token, salt), token)
  }

  /** No other token matches a hash. */
  ghost predicate Exact(hash: Hasher, matches: Matcher) {
    forall token, salt, other :: matches(hash(token, salt), other) <==> other == token
  }

  ghost predicate HashOf(h: string, token: string, hash: Hasher) {
    exists salt :: h == hash(token, salt)
  }

  /** The constraints that the store enforces. */
  predicate Consistent(s: State) {
    && UniqueIds(s.rows)
    && (forall id :: id in s.rows ==> id <= s.lastId)
    && (forall k :: k in s.sessions ==> s.sessions[k] in s.rows)
  }

  ghost predicate Inv(s: State, hash: Hasher) {
    && Consistent(s)
    && (forall id :: id in s.issued ==>
          && id in s.rows && IsToken(s.issued[id])
          && s.rows[id].tokenId == TokenId(s.issued[id])
          && HashOf(s.rows[id].hash, s.issued[id], hash))
  }

  lemma StepKeepsInv(s: State, step: Step, hash: Hasher)
    requires Inv(s, hash) && IssuesTokens(step)
    ensures Inv(Next(s, step, hash), hash)
  {
    if IssuesToken(step) {
      assert HashOf(hash(step.token, step.salt), step.token, hash);
    }
  }

  lemma {:induction false} RunKeepsInv(s: State, steps: seq<Step>, hash: Hasher)
    requires Inv(s, hash) && forall i :: 0 <= i < |steps| ==> IssuesTokens(steps[i])
    ensures Inv(Run(s, steps, hash), hash)
    decreases |steps|
  {
    if steps != [] {
      StepKeepsInv(s, steps[0], hash);
      RunKeepsInv(Next(s, steps[0], hash), steps[1..], hash);
    }
  }

  /** The table as the migration leaves it; sessions may refer to its rows. */
  ghost predicate IsStart(s: State) { Consistent(s) && s.issued == map[] }

  /** However the GUI has changed the table since the migration, the index holds,
      and it leads from every token in force to the client it was issued to. */
  lemma IssuedTokenIsIndexed(start: State, steps: seq<Step>, hash: Hasher, matches: Matcher, id: int)
    requires IsStart(start)
    requires (forall i :: 0 <= i < |steps| ==> IssuesTokens(steps[i])) && Sound(hash, matches)
    ensures var s := Run(start, steps, hash);
            UniqueIds(s.rows) && (id in s.issued ==> IndexedMatch(s.rows, id, s.issued[id], matches))
  {
    RunKeepsInv(start, steps, hash);
  }

  /** With an exact hash, the row of a client that has been issued a token accepts
      the token in force and nothing else, in particular no replaced token; and
      among such clients no token is accepted by two. */
  lemma OnlyTheTokenInForce(start: State, steps: seq<Step>, hash: Hasher, matches: Matcher, token: string)
    requires IsStart(start)
    requires (forall i :: 0 <= i < |steps| ==> IssuesTokens(steps[i])) && Exact(hash, matches)
    ensures var s := Run(start, steps, hash);
            && (forall id :: id in s.issued ==> (Matches(s.rows, id, token, matches) <==> s.issued[id] == token))
            && (forall a, b :: a in s.issued && b in s.issued && s.issued[a] == s.issued[b] ==> a == b)
            && (s.rows.Keys == s.issued.Keys ==> AtMostOneMatch(s.rows, token, matches))
  {
    RunKeepsInv(start, steps, hash);
    IssuedRowsAreExact(Run(start, steps, hash), hash, matches, token);
  }

  lemma IssuedRowsAreExact(s: State, hash: Hasher, matches: Matcher, token: string)
    requires Inv(s, hash) && Exact(hash, matches)
    ensures forall id :: id in s.issued ==> (Matches(s.rows, id, token, matches) <==> s.issued[id] == token)
  {
    forall id | id in s.issued ensures Matches(s.rows, id, token, matches) <==> s.issued[id] == token {
      var salt :| s.rows[id].hash == hash(s.issued[id], salt);
    }
  }

  /** If all rows were issued here at the start, they still are. */
  lemma {:induction false} RunKeepsAllIssued(s: State, steps: seq<Step>, hash: Hasher)
    requires s.rows.Keys == s.issued.Keys
    ensures Run(s, steps, hash).rows.Keys == Run(s, steps, hash).issued.Keys
    decreases |steps|
  {
    if steps != [] { RunKeepsAllIssued(Next(s, steps[0], hash), steps[1..], hash); }
  }

  /** A token stays in force until its client is given another one or is asked to
      be deleted, whatever happens to other clients. */
  lemma {:induction false} TokenStaysInForce(s: State, steps: seq<Step>, hash: Hasher, id: int)
    requires Inv(s, hash) && id in s.issued && forall i :: 0 <= i < |steps| ==> IssuesTokens(steps[i])
    requires forall i :: 0 <= i < |steps| ==>
               !(steps[i].Delete? && steps[i].id == id) && !(steps[i].Regenerate? && steps[i].id == id)
    ensures var t := Run(s, steps, hash);
            id in t.issued && t.issued[id] == s.issued[id] && id in t.rows && t.rows[id] == s.rows[id]
    decreases |steps|
  {
    if steps != [] {
      StepKeepsInv(s, steps[0], hash);
      TokenStaysInForce(Next(s, steps[0], hash), steps[1..], hash, id);
    }
  }

  /** A session stays its client's until it is ended, and so the client stays. */
  lemma {:induction false} SessionStaysTheClients(s: State, steps: seq<Step>, hash: Hasher, session: string)
    requires Inv(s, hash) && forall i :: 0 <= i < |steps| ==> IssuesTokens(steps[i])
    requires session in s.sessions && EndSession(session) !in steps
    ensures var t := Run(s, steps, hash);
            session in t.sessions && t.sessions[session] == s.sessions[session] && s.sessions[session] in t.rows
    decreases |steps|
  {
    if steps != [] {
      StepKeepsInv(s, steps[0], hash);
      assert steps[0] in steps && EndSession(session) !in steps[1..];
      SessionStaysTheClients(Next(s, steps[0], hash), steps[1..], hash, session);
    }
  }

  /** A log-in opens a session for the very client, and for that one only, until it
      is ended; it needs a new id and a client that is there. */
  lemma LoginOpensTheClientsSession(start: State, before: seq<Step>, session: string, id: int, steps: seq<Step>,
                                    hash: Hasher)
    requires IsStart(start) && (forall i :: 0 <= i < |before| ==> IssuesTokens(before[i]))
    requires (forall i :: 0 <= i < |steps| ==> IssuesTokens(steps[i])) && EndSession(session) !in steps
    requires session !in Run(start, before, hash).sessions && id in Run(start, before, hash).rows
    ensures var t := Run(Next(Run(start, before, hash), LogIn(session, id), hash), steps, hash);
            session in t.sessions && t.sessions[session] == id && id in t.rows
  {
    RunKeepsInv(start, before, hash);
    StepKeepsInv(Run(start, before, hash), LogIn(session, id), hash);
    SessionStaysTheClients(Next(Run(start, before, hash), LogIn(session, id), hash), steps, hash, session);
  }

  /** And there are no other sessions than those of log-ins. */
  lemma {:induction false} SessionsComeFromLogins(s: State, steps: seq<Step>, hash: Hasher, session: string)
    requires session in Run(s, steps, hash).sessions
    ensures var id := Run(s, steps, hash).sessions[session];
            (session in s.sessions && s.sessions[session] == id) || LogIn(session, id) in steps
    decreases |steps|
  {
    if steps != [] {
      SessionsComeFromLogins(Next(s, steps[0], hash), steps[1..], hash, session);
      assert steps == [steps[0]] + steps[1..];
    }
  }

  /** Deleting a client takes its token out of force exactly if no token session,
      expired or not, refers to the client; otherwise nothing happens, and the
      caller is not told. */
  lemma DeletionRevokesIff(start: State, steps: seq<Step>, hash: Hasher, matches: Matcher, id: int)
    requires IsStart(start)
    requires (forall i :: 0 <= i < |steps| ==> IssuesTokens(steps[i])) && Exact(hash, matches)
    requires id in Run(start, steps, hash).issued
    ensures var s := Run(start, steps, hash);
            var s' := Next(s, Delete(id), hash);
            var referred := exists k :: k in s.sessions && s.sessions[k] == id;
            && (IndexedMatch(s'.rows, id, s.issued[id], matches) <==> referred)
            && (Matches(s'.rows, id, s.issued[id], matches) <==> referred)
            && (s.rows.Keys == s.issued.Keys ==>
                  (NoMatch(s'.rows, s.issued[id], matches) <==> !referred))
  {
    var s := Run(start, steps, hash);
    RunKeepsInv(start, steps, hash);
    IssuedRowsAreExact(s, hash, matches, s.issued[id]);
    if !Referred(s.sessions, id) && s.rows.Keys == s.issued.Keys {
      forall other | other in s.rows && other != id ensures !matches(s.rows[other].hash, s.issued[id]) {
        assert Matches(s.rows, other, s.issued[id], matches) <==> s.issued[other] == s.issued[id];
      }
    }
    if Referred(s.sessions, id) {
      assert Matches(s.rows, id, s.issued[id], matches);
    }
  }

  /** For instance after a client has logged in to the GUI with its token. */
  lemma LoggedInClientIsNotDeleted(token: string, salt: int, session: string, hash: Hasher, matches: Matcher)
    requires IsToken(token) && Sound(hash, matches)
    ensures var s := Run(State(map[], 0, map[], map[]), [New(token, salt), LogIn(session, 1), Delete(1)], hash);
            IndexedMatch(s.rows, 1, token, matches)
  {
    var s0 := State(map[], 0, map[], map[]);
    var s1 := Next(s0, New(token, salt), hash);
    var s2 := Next(s1, LogIn(session, 1), hash);
    assert session in s2.sessions && s2.sessions[session] == 1;
    var s3 := Next(s2, Delete(1), hash);
    var steps := [New(token, salt), LogIn(session, 1), Delete(1)];
    var tail, last := [LogIn(session, 1), Delete(1)], [Delete(1)];
    assert steps[1..] == tail && tail[1..] == last && last[1..] == [];
    assert Run(s2, last, hash) == Run(s3, [], hash) == s3;
    assert Run(s1, tail, hash) == Run(s2, last, hash);
  }

  /** The clients of the store. */
  class ClientStore {
    var rows: Table
    var lastId: int
    var sessions: map<string, int>
    ghost var issued: map<int, string>

    ghost function View(): State
      reads this
    {
      State(rows, lastId, issued, sessions)
    }

    ghost predicate Valid()
      reads this
    {
      Consistent(View())
    }

    constructor (migrated: Table, last: int, tokenSessions: map<string, int>)
      requires Consistent(State(migrated, last, map[], tokenSessions))
      ensures Valid() && View() == State(migrated, last, map[], tokenSessions)
    {
      rows, lastId, issued, sessions := migrated, last, map[], tokenSessions;
    }

    /** INSERT, refused by the index if the token id is in use. */
    method CreateClient(hash: string, tokenId: string) returns (ok: bool, id: int)
      requires Valid()
      modifies this`rows, this`lastId
      ensures Valid() && id == old(lastId) + 1 && ok == !TakenByOther(old(rows), id, tokenId)
      ensures ok ==> rows == old(rows)[id := Client(hash, tokenId)] && lastId == id
      ensures !ok ==> rows == old(rows) && lastId == old(lastId)
    {
      id := lastId + 1;
      var other := ClientByTokenId(rows, tokenId);
      ok := other.None?;
      if ok {
        rows, lastId := rows[id := Client(hash, tokenId)], id;
      }
    }

    /** UPDATE: no error if there is no such client. */
    method UpdateClientToken(id: int, hash: string, tokenId: string) returns (ok: bool)
      requires Valid()
      modifies this`rows
      ensures Valid() && ok == !(id in old(rows) && TakenByOther(old(rows), id, tokenId))
      ensures rows == if ok && id in old(rows) then old(rows)[id := Client(hash, tokenId)] else old(rows)
    {
      if id !in rows {
        return true;
      }
      var other := ClientByTokenId(rows, tokenId);
      ok := other.None? || other.value == id;
      if ok {
        rows := rows[id := Client(hash, tokenId)];
      }
    }

    /** DELETE, refused by the foreign key if a token session refers to the client. */
    method DeleteClient(id: int) returns (ok: bool)
      requires Valid()
      modifies this`rows
      ensures Valid() && ok == !Referred(sessions, id)
      ensures rows == if ok then old(rows) - {id} else old(rows)
    {
      ok := !exists k :: k in sessions && sessions[k] == id;
      if ok {
        rows := rows - {id};
      }
    }

    method PostNewClient(token: string, salt: int, hash: Hasher) returns (ok: bool, id: int)
      requires Valid()
      modifies this
      ensures Valid() && View() == Next(old(View()), New(token, salt), hash)
      ensures ok ==> id !in old(rows) && issued == old(issued)[id := token]
                     && rows == old(rows)[id := Client(hash(token, salt), TokenId(token))]
      ensures !ok ==> rows == old(rows) && issued == old(issued)
      ensures sessions == old(sessions)
      ensures ok <==> forall other :: other in old(rows) ==> old(rows)[other].tokenId != TokenId(token)
    {
      ok, id := CreateClient(hash(token, salt), TokenId(token));
      if ok {
        issued := issued[id := token];
      }
    }

    /** Replaces the token of a client that was in the table when it was looked up,
        and then disconnects its agent.  A client that has gone since is no error:
        the token is shown all the same, but is nobody's. */
    method PostRegenerateClient(registry: AgentRegistry.Registry, seen: Table,
                                id: int, token: string, salt: int, hash: Hasher)
        returns (shown: bool)
      requires Valid()
      modifies this, if id in registry.agents then {registry.agents[id].session} else {}
      ensures Valid() && View() == if id in seen then Next(old(View()), Regenerate(id, token, salt), hash)
                else old(View())
      ensures shown <==>
                id in seen
                && (id in old(rows) ==>
                      forall other :: other in old(rows) && other != id ==> old(rows)[other].tokenId != TokenId(token))
      ensures shown && id in old(rows) ==>
                && rows == old(rows)[id := Client(hash(token, salt), TokenId(token))]
                && issued == old(issued)[id := token]
      ensures !shown || id !in old(rows) ==> rows == old(rows) && issued == old(issued)
      ensures sessions == old(sessions) && lastId == old(lastId)
      ensures id in registry.agents ==>
                registry.agents[id].session.open == (!shown && old(registry.agents[id].session.open))
    {
      if id !in seen {
        return false;
      }
      shown := UpdateClientToken(id, hash(token, salt), TokenId(token));
      if shown {
        if id in rows {
          issued := issued[id := token];
        }
        var _ := registry.Disconnect(id);
      }
    }

    /** The error of a refused deletion is dropped. */
    method PostDeleteClient(id: int, ghost hash: Hasher)
      requires Valid()
      modifies this
      ensures Valid() && View() == Next(old(View()), Delete(id), hash)
      ensures (exists k :: k in sessions && sessions[k] == id) ==> rows == old(rows) && issued == old(issued)
      ensures (forall k :: k in sessions ==> sessions[k] != id) ==>
                rows == old(rows) - {id} && issued == old(issued) - {id}
      ensures sessions == old(sessions) && lastId == old(lastId)
    {
      var ok := DeleteClient(id);
      if ok {
        issued := issued - {id};
      }
    }

    /** Logs a client in by its token, whose queries meet the tables t, scanned and
        fetched; session is the id drawn for it.  The INSERT is refused if the
        client has gone by then. */
    method PostTokenLogin(t: Table, scanned: Table, fetched: Table,
                          token: string, session: string, matches: Matcher, ghost hash: Hasher)
        returns (ok: bool, id: int)
      requires Valid() && UniqueIds(t)
      modifies this`sessions
      ensures Valid()
      ensures ok ==>
                && View() == Next(old(View()), LogIn(session, id), hash)
                && session !in old(sessions) && id in rows && sessions == old(sessions)[session := id]
                && (IndexedMatch(t, id, TrimSpace(token), matches) || Matches(scanned, id, TrimSpace(token), matches))
      ensures !ok ==> View() == old(View()) && sessions == old(sessions)
      ensures forall c :: IndexedMatch(t, c, TrimSpace(token), matches) ==>
                ok == (session !in old(sessions) && c in rows)
      ensures forall c :: IndexedMatch(t, c, TrimSpace(token), matches) && ok ==> id == c
    {
      var found := ClientByToken(t, scanned, fetched, token, matches);
      ok, id := false, 0;
      if found.Accepted? {
        id := found.id;
        ok := session !in sessions && id in rows;
        if ok {
          sessions := sessions[session := id];
        }
      }
    }

    /** Log-out, an expired session that is looked up, or a sweep. */
    method DropSession(session: string, ghost hash: Hasher)
      requires Valid()
      modifies this`sessions
      ensures Valid() && View() == Next(old(View()), EndSession(session), hash)
      ensures sessions == old(sessions) - {session}
    {
      sessions := sessions - {session};
    }
  }
}
