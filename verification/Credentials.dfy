/** Tokens bound to credentials: the credential-save, token-import, callback and
  * refresh-persist steps of baiduopen and 123pan providers, in any interleaving. */
module Credentials {
  import opened Strings
  import opened Wrappers

  type Secrets = map<string, string>

  datatype Kind = BaiduOpen | Pan123

  datatype Application = Application(clientId: string, clientSecret: string)

  datatype Tokens = Tokens(access: string, refresh: string, expiresAt: string)

  // A runtime provider; tokenState is the identity of the TokenState it shares.
  datatype Runtime = Runtime(rootPath: string, application: Application, tokenState: nat)

  // The arguments of a call that persists tokens.
  datatype Write = Write(application: Application, tokens: Tokens)

  // Every runtime, snapshot and write ever made stays available to later steps, so a
  // refresh or a persist may come arbitrarily late. issued records what the cloud has
  // handed out, and for which application.
  datatype State = State(
    kind: Kind, secrets: Secrets, cached: Option<Runtime>, runtimes: set<Runtime>,
    tokenStates: seq<Tokens>, snapshots: set<Secrets>, writes: set<Write>,
    issued: set<(string, Application)>)

  datatype Action =
    | Save(clientId: string, clientSecret: string)
    | Invalidate
    | Load
    | Build(snapshot: Secrets, rootPath: string)
    | Refresh(runtime: Runtime, answer: Tokens)
    | Exchange(snapshot: Secrets, answer: Tokens)
    | Persist(write: Write)

  const CLIENT_ID := "client_id"
  const CLIENT_SECRET := "client_secret"
  const ACCESS_TOKEN := "access_token"
  const REFRESH_TOKEN := "refresh_token"
  const EXPIRES_AT := "access_token_expires_at"

  // ---- Trimming ----

  lemma {:induction false} TrimLeftShape(s: string)
    ensures TrimLeft(s) == "" || !IsSpace(TrimLeft(s)[0])
  {
    if s != "" && IsSpace(s[0]) {
      TrimLeftShape(s[1..]);
    }
  }

  lemma TrimIdempotent(s: string)
    ensures TrimSpace(TrimSpace(s)) == TrimSpace(s)
  {
    TrimLeftShape(s);
    var t := TrimSpace(s);
    if t != "" {
      assert t[0] == TrimLeft(s)[0];
      assert TrimLeft(t) == t;
    }
  }

  // ---- The secrets table ----

  datatype Item = Item(secretType: string, value: string)

  function Upserted(rows: Secrets, items: seq<Item>): Secrets {
    if items == [] then rows
    else
      var last := items[|items| - 1];
      Upserted(rows, items[..|items| - 1])[last.secretType := last.value]
  }

  // One call of replaceMany on the rows of its provider.
  function Replaced(rows: Secrets, items: seq<Item>, deleted: set<string>): Secrets {
    Upserted(rows - deleted, items)
  }

  // What every reader sees of a row: absent rows read as the empty string.
  function Value(rows: Secrets, secretType: string): string {
    TrimSpace(if secretType in rows then rows[secretType] else "")
  }

  function Stored(rows: Secrets): Application {
    Application(Value(rows, CLIENT_ID), Value(rows, CLIENT_SECRET))
  }

  predicate Complete(a: Application) {
    a.clientId != "" && a.clientSecret != ""
  }

  function TokenTypes(kind: Kind): set<string> {
    if kind.BaiduOpen? then {ACCESS_TOKEN, REFRESH_TOKEN, EXPIRES_AT} else {ACCESS_TOKEN, EXPIRES_AT}
  }

  function TokensOf(kind: Kind, rows: Secrets): Tokens {
    Tokens(Value(rows, ACCESS_TOKEN), if kind.BaiduOpen? then Value(rows, REFRESH_TOKEN) else "", Value(rows, EXPIRES_AT))
  }

  // ---- The steps ----

  // What the credential handler stores, or nothing when it refuses the request.
  function Requested(kind: Kind, rows: Secrets, clientId: string, clientSecret: string): Option<Application> {
    var id, secret := TrimSpace(clientId), TrimSpace(clientSecret);
    var kept := if kind.BaiduOpen? && secret == "" then Value(rows, CLIENT_SECRET) else secret;
    if Complete(Application(id, kept)) then Some(Application(id, kept)) else None
  }

  function SavedSecrets(kind: Kind, rows: Secrets, a: Application): Secrets {
    if kind.BaiduOpen? && a == Stored(rows) then rows
    else Replaced(rows, [Item(CLIENT_ID, a.clientId), Item(CLIENT_SECRET, a.clientSecret)], TokenTypes(kind))
  }

  function Trimmed(t: Tokens): Tokens {
    Tokens(TrimSpace(t.access), TrimSpace(t.refresh), TrimSpace(t.expiresAt))
  }

  predicate Usable(kind: Kind, t: Tokens) {
    t.access != "" && (kind.BaiduOpen? ==> t.refresh != "")
  }

  function TokenItems(kind: Kind, t: Tokens): seq<Item> {
    [Item(ACCESS_TOKEN, t.access)]
    + (if kind.BaiduOpen? then [Item(REFRESH_TOKEN, t.refresh)] else [])
    + (if t.expiresAt != "" then [Item(EXPIRES_AT, t.expiresAt)] else [])
  }

  // Whether a write is taken: its application must still be the stored one.
  predicate Accepted(kind: Kind, rows: Secrets, w: Write) {
    && Usable(kind, Trimmed(w.tokens))
    && Stored(rows) == Application(TrimSpace(w.application.clientId), TrimSpace(w.application.clientSecret))
  }

  function PersistedSecrets(kind: Kind, rows: Secrets, w: Write): Secrets {
    if Accepted(kind, rows, w) then Replaced(rows, TokenItems(kind, Trimmed(w.tokens)), TokenTypes(kind)) else rows
  }

  // getOrCreate…Provider: a cached runtime with the same root and application is reused
  // as it is, one with the same application hands over its token state.
  function Built(s: State, snapshot: Secrets, rootPath: string): State {
    var a := Stored(snapshot);
    if s.cached.Some? && s.cached.value.rootPath == rootPath && s.cached.value.application == a then s
    else if s.cached.Some? && s.cached.value.application == a then
      var r := Runtime(rootPath, a, s.cached.value.tokenState);
      s.(cached := Some(r), runtimes := s.runtimes + {r})
    else
      var r := Runtime(rootPath, a, |s.tokenStates|);
      s.(cached := Some(r), runtimes := s.runtimes + {r}, tokenStates := s.tokenStates + [TokensOf(s.kind, snapshot)])
  }

  // The token state after the cloud has answered a refresh.
  function Refreshed(kind: Kind, t: Tokens, answer: Tokens): Tokens {
    var n := Trimmed(answer);
    if kind.BaiduOpen? then (if n.refresh != "" then n else n.(refresh := t.refresh)) else n.(refresh := "")
  }

  function Issue(issued: set<(string, Application)>, a: Application, answer: Tokens): set<(string, Application)> {
    issued + {(TrimSpace(answer.access), a), (TrimSpace(answer.refresh), a)}
  }

  ghost function Next(s: State, action: Action): Option<State> {
    match action
    case Save(clientId, clientSecret) =>
      var requested := Requested(s.kind, s.secrets, clientId, clientSecret);
      if requested.Some? then Some(s.(secrets := SavedSecrets(s.kind, s.secrets, requested.value))) else None
    case Invalidate => Some(s.(cached := None))
    case Load => Some(s.(snapshots := s.snapshots + {s.secrets}))
    case Build(snapshot, rootPath) =>
      if snapshot in s.snapshots && Complete(Stored(snapshot)) then Some(Built(s, snapshot, rootPath)) else None
    case Refresh(r, answer) =>
      if r !in s.runtimes || r.tokenState >= |s.tokenStates| || !Usable(s.kind, Trimmed(answer)) then None
      else if s.kind.BaiduOpen? && s.tokenStates[r.tokenState].refresh == "" then None
      else
        var t := Refreshed(s.kind, s.tokenStates[r.tokenState], answer);
        Some(s.(tokenStates := s.tokenStates[r.tokenState := t],
                writes := s.writes + {Write(r.application, t)},
                issued := Issue(s.issued, r.application, answer)))
    case Exchange(snapshot, answer) =>
      if s.kind.BaiduOpen? && snapshot in s.snapshots && Complete(Stored(snapshot)) && Usable(s.kind, Trimmed(answer))
      then Some(s.(writes := s.writes + {Write(Stored(snapshot), answer)},
                   issued := Issue(s.issued, Stored(snapshot), answer)))
      else None
    case Persist(w) =>
      if w in s.writes then Some(s.(secrets := PersistedSecrets(s.kind, s.secrets, w))) else None
  }

  // ---- The binding ----

  predicate TokenBound(issued: set<(string, Application)>, token: string, a: Application) {
    token == "" || (token, a) in issued
  }

  predicate Bound(issued: set<(string, Application)>, t: Tokens, a: Application) {
    TokenBound(issued, TrimSpace(t.access), a) && TokenBound(issued, TrimSpace(t.refresh), a)
  }

  predicate SecretsBound(kind: Kind, issued: set<(string, Application)>, rows: Secrets) {
    Bound(issued, TokensOf(kind, rows), Stored(rows))
  }

  predicate TrimmedApplication(a: Application) {
    TrimSpace(a.clientId) == a.clientId && TrimSpace(a.clientSecret) == a.clientSecret
  }

  ghost predicate RuntimesBound(issued: set<(string, Application)>, runtimes: set<Runtime>, tokenStates: seq<Tokens>) {
    && (forall r :: r in runtimes ==>
          r.tokenState < |tokenStates| && Bound(issued, tokenStates[r.tokenState], r.application))
    && (forall r, q :: r in runtimes && q in runtimes && r.tokenState == q.tokenState ==> r.application == q.application)
  }

  ghost predicate WritesBound(issued: set<(string, Application)>, writes: set<Write>) {
    forall w :: w in writes ==> Bound(issued, w.tokens, w.application) && TrimmedApplication(w.application)
  }

  ghost predicate SnapshotsBound(kind: Kind, issued: set<(string, Application)>, snapshots: set<Secrets>) {
    forall rows :: rows in snapshots ==> SecretsBound(kind, issued, rows)
  }

  ghost predicate Inv(s: State) {
    && SecretsBound(s.kind, s.issued, s.secrets)
    && (s.cached.Some? ==> s.cached.value in s.runtimes)
    && RuntimesBound(s.issued, s.runtimes, s.tokenStates)
    && (forall r :: r in s.runtimes ==> TrimmedApplication(r.application))
    && WritesBound(s.issued, s.writes)
    && SnapshotsBound(s.kind, s.issued, s.snapshots)
  }

  // A provider just created: no secrets, nothing loaded, nothing issued.
  function Initial(kind: Kind): State {
    State(kind, map[], None, {}, [], {}, {}, {})
  }

  lemma InitialInv(kind: Kind)
    ensures Inv(Initial(kind))
  {
  }

  // ---- What a replacement leaves in the table ----

  lemma UpsertedNext(rows: Secrets, items: seq<Item>, item: Item)
    ensures Upserted(rows, items + [item]) == Upserted(rows, items)[item.secretType := item.value]
  {
    assert (items + [item])[..|items|] == items;
  }

  lemma UpsertedOne(rows: Secrets, item: Item)
    ensures Upserted(rows, [item]) == rows[item.secretType := item.value]
  {
    UpsertedNext(rows, [], item);
    assert [] + [item] == [item];
  }

  lemma SavedRows(kind: Kind, rows: Secrets, a: Application)
    ensures Replaced(rows, [Item(CLIENT_ID, a.clientId), Item(CLIENT_SECRET, a.clientSecret)], TokenTypes(kind))
         == (rows - TokenTypes(kind))[CLIENT_ID := a.clientId][CLIENT_SECRET := a.clientSecret]
  {
    UpsertedOne(rows - TokenTypes(kind), Item(CLIENT_ID, a.clientId));
    UpsertedNext(rows - TokenTypes(kind), [Item(CLIENT_ID, a.clientId)], Item(CLIENT_SECRET, a.clientSecret));
    assert [Item(CLIENT_ID, a.clientId)] + [Item(CLIENT_SECRET, a.clientSecret)]
        == [Item(CLIENT_ID, a.clientId), Item(CLIENT_SECRET, a.clientSecret)];
  }

  // Saving stores the application; when it changes anything, no token stays.
  lemma SaveStores(kind: Kind, rows: Secrets, a: Application)
    requires TrimmedApplication(a)
    ensures Stored(SavedSecrets(kind, rows, a)) == a
    ensures kind.Pan123? || a != Stored(rows) ==> TokensOf(kind, SavedSecrets(kind, rows, a)) == Tokens("", "", "")
    ensures kind.BaiduOpen? && a == Stored(rows) ==> SavedSecrets(kind, rows, a) == rows
  {
    SavedRows(kind, rows, a);
  }

  lemma RequestedIsTrimmed(kind: Kind, rows: Secrets, clientId: string, clientSecret: string)
    requires Requested(kind, rows, clientId, clientSecret).Some?
    ensures TrimmedApplication(Requested(kind, rows, clientId, clientSecret).value)
  {
    TrimIdempotent(clientId);
    TrimIdempotent(clientSecret);
    TrimIdempotent(if CLIENT_SECRET in rows then rows[CLIENT_SECRET] else "");
  }

  lemma TokenRowsAre(kind: Kind, rows: Secrets, t: Tokens)
    ensures var access := (rows - TokenTypes(kind))[ACCESS_TOKEN := t.access];
            var both := if kind.BaiduOpen? then access[REFRESH_TOKEN := t.refresh] else access;
            Replaced(rows, TokenItems(kind, t), TokenTypes(kind))
            == if t.expiresAt != "" then both[EXPIRES_AT := t.expiresAt] else both
  {
    var base := rows - TokenTypes(kind);
    var one := [Item(ACCESS_TOKEN, t.access)];
    UpsertedOne(base, one[0]);
    var two := one + if kind.BaiduOpen? then [Item(REFRESH_TOKEN, t.refresh)] else [];
    UpsertedNext(base, one, Item(REFRESH_TOKEN, t.refresh));
    UpsertedNext(base, two, Item(EXPIRES_AT, t.expiresAt));
    hide Upserted;
    assert kind.Pan123? ==> two == one;
    assert TokenItems(kind, t) == if t.expiresAt != "" then two + [Item(EXPIRES_AT, t.expiresAt)] else two;
  }

  lemma TokenRows(kind: Kind, rows: Secrets, t: Tokens)
    ensures var after := Replaced(rows, TokenItems(kind, t), TokenTypes(kind));
            && TokensOf(kind, after)
               == Tokens(TrimSpace(t.access), if kind.BaiduOpen? then TrimSpace(t.refresh) else "", TrimSpace(t.expiresAt))
            && Stored(after) == Stored(rows)
  {
    hide Replaced, TokenItems, TrimSpace;
    TokenRowsAre(kind, rows, t);
  }

  // A write for another application is dropped; one for the stored application replaces
  // the tokens and leaves the credentials alone.
  lemma PersistIsGuarded(kind: Kind, rows: Secrets, w: Write)
    requires TrimmedApplication(w.application)
    ensures Stored(PersistedSecrets(kind, rows, w)) == Stored(rows)
    ensures w.application != Stored(rows) ==> PersistedSecrets(kind, rows, w) == rows
    ensures w.application == Stored(rows) && Usable(kind, Trimmed(w.tokens)) ==>
              TokensOf(kind, PersistedSecrets(kind, rows, w))
              == if kind.BaiduOpen? then Trimmed(w.tokens) else Trimmed(w.tokens).(refresh := "")
  {
    TokenRows(kind, rows, Trimmed(w.tokens));
    TrimIdempotent(w.tokens.access);
    TrimIdempotent(w.tokens.refresh);
    TrimIdempotent(w.tokens.expiresAt);
  }

  // ---- Every step keeps the binding ----

  lemma IssueKeeps(s: State, a: Application, answer: Tokens)
    requires Inv(s)
    ensures Inv(s.(issued := Issue(s.issued, a, answer)))
    ensures Bound(Issue(s.issued, a, answer), answer, a)
  {
    hide TrimSpace, Stored, TokensOf;
  }

  lemma BoundTrimmed(issued: set<(string, Application)>, t: Tokens, a: Application)
    ensures Bound(issued, Trimmed(t), a) == Bound(issued, t, a)
  {
    TrimIdempotent(t.access);
    TrimIdempotent(t.refresh);
  }

  lemma SnapshotTokensBound(kind: Kind, issued: set<(string, Application)>, rows: Secrets)
    requires SecretsBound(kind, issued, rows)
    ensures Bound(issued, TokensOf(kind, rows), Stored(rows)) && TrimmedApplication(Stored(rows))
  {
    TrimIdempotent(if CLIENT_ID in rows then rows[CLIENT_ID] else "");
    TrimIdempotent(if CLIENT_SECRET in rows then rows[CLIENT_SECRET] else "");
  }

  lemma BuildKeepsInv(s: State, snapshot: Secrets, rootPath: string)
    requires Inv(s) && snapshot in s.snapshots
    ensures Inv(Built(s, snapshot, rootPath))
  {
    SnapshotTokensBound(s.kind, s.issued, snapshot);
    hide Bound, TrimmedApplication, SecretsBound, Stored, TokensOf;
  }

  lemma RefreshedBound(kind: Kind, issued: set<(string, Application)>, t: Tokens, answer: Tokens, a: Application)
    requires Bound(issued, t, a) && Bound(issued, answer, a)
    ensures Bound(issued, Refreshed(kind, t, answer), a)
  {
    hide TrimSpace;
    TrimIdempotent(answer.access);
    TrimIdempotent(answer.refresh);
    TrimEmpty();
  }

  lemma TrimEmpty()
    ensures TrimSpace("") == ""
  {
  }

  lemma RefreshKeepsInv(s: State, r: Runtime, answer: Tokens)
    requires Inv(s) && Next(s, Refresh(r, answer)).Some?
    ensures Inv(Next(s, Refresh(r, answer)).value)
  {
    hide Bound, TrimmedApplication, SecretsBound, Issue, Refreshed, Usable, Trimmed;
    IssueKeeps(s, r.application, answer);
    RefreshedBound(s.kind, Issue(s.issued, r.application, answer), s.tokenStates[r.tokenState], answer, r.application);
  }

  lemma SaveKeepsInv(s: State, clientId: string, clientSecret: string)
    requires Inv(s) && Next(s, Save(clientId, clientSecret)).Some?
    ensures Inv(Next(s, Save(clientId, clientSecret)).value)
  {
    var a := Requested(s.kind, s.secrets, clientId, clientSecret).value;
    RequestedIsTrimmed(s.kind, s.secrets, clientId, clientSecret);
    SaveStores(s.kind, s.secrets, a);
    TrimIdempotent("");
    assert SecretsBound(s.kind, s.issued, SavedSecrets(s.kind, s.secrets, a));
    hide Requested, SavedSecrets, SecretsBound, Bound, TrimmedApplication;
  }

  lemma PersistedBound(kind: Kind, issued: set<(string, Application)>, rows: Secrets, w: Write)
    requires SecretsBound(kind, issued, rows) && Bound(issued, w.tokens, w.application) && TrimmedApplication(w.application)
    ensures SecretsBound(kind, issued, PersistedSecrets(kind, rows, w))
  {
    PersistIsGuarded(kind, rows, w);
    BoundTrimmed(issued, w.tokens, w.application);
    TrimEmpty();
    hide Stored, TokensOf, TrimSpace;
  }

  lemma PersistKeepsInv(s: State, w: Write)
    requires Inv(s) && Next(s, Persist(w)).Some?
    ensures Inv(Next(s, Persist(w)).value)
  {
    hide PersistedSecrets, SecretsBound, Bound, TrimmedApplication;
    PersistedBound(s.kind, s.issued, s.secrets, w);
  }

  lemma ExchangeKeepsInv(s: State, snapshot: Secrets, answer: Tokens)
    requires Inv(s) && Next(s, Exchange(snapshot, answer)).Some?
    ensures Inv(Next(s, Exchange(snapshot, answer)).value)
  {
    hide Bound, TrimmedApplication, SecretsBound, Issue, Stored, TokensOf, Usable, Trimmed;
    SnapshotTokensBound(s.kind, s.issued, snapshot);
    IssueKeeps(s, Stored(snapshot), answer);
    hide RuntimesBound, SnapshotsBound;
  }

  lemma StepKeepsInv(s: State, action: Action)
    requires Inv(s) && Next(s, action).Some?
    ensures Inv(Next(s, action).value)
  {
    hide SecretsBound, Bound, TrimmedApplication, Stored, Requested, SavedSecrets, PersistedSecrets;
    hide Usable, Trimmed, Built, Refreshed;
    match action
    case Save(clientId, clientSecret) => SaveKeepsInv(s, clientId, clientSecret);
    case Invalidate =>
    case Load =>
    case Build(snapshot, rootPath) => BuildKeepsInv(s, snapshot, rootPath);
    case Refresh(r, answer) => RefreshKeepsInv(s, r, answer);
    case Exchange(snapshot, answer) => ExchangeKeepsInv(s, snapshot, answer);
    case Persist(w) => PersistKeepsInv(s, w);
  }

  // ---- Whole runs ----

  ghost predicate Run(kind: Kind, states: seq<State>, actions: seq<Action>) {
    && |states| == |actions| + 1
    && states[0] == Initial(kind)
    && forall i :: 0 <= i < |actions| ==> Next(states[i], actions[i]) == Some(states[i + 1])
  }

  lemma {:induction false} RunKeepsInv(kind: Kind, states: seq<State>, actions: seq<Action>, i: nat)
    requires Run(kind, states, actions) && i < |states|
    ensures Inv(states[i])
  {
    hide Inv, Next;
    if i == 0 {
      InitialInv(kind);
    } else {
      var k := i - 1;
      assert Next(states[k], actions[k]) == Some(states[k + 1]);
      RunKeepsInv(kind, states, actions, k);
      StepKeepsInv(states[k], actions[k]);
    }
  }

  // In every reachable state each stored token was issued for the stored application.
  lemma StoredTokensAreBound(kind: Kind, states: seq<State>, actions: seq<Action>, i: nat)
    requires Run(kind, states, actions) && i < |states|
    ensures var s := states[i];
            var t := TokensOf(s.kind, s.secrets);
            TokenBound(s.issued, t.access, Stored(s.secrets)) && TokenBound(s.issued, t.refresh, Stored(s.secrets))
  {
    RunKeepsInv(kind, states, actions, i);
    var s := states[i];
    TrimIdempotent(if ACCESS_TOKEN in s.secrets then s.secrets[ACCESS_TOKEN] else "");
    TrimIdempotent(if REFRESH_TOKEN in s.secrets then s.secrets[REFRESH_TOKEN] else "");
    TrimIdempotent("");
  }

  // So do the tokens of every runtime provider ever built, the cached one included.
  lemma RuntimeTokensAreBound(kind: Kind, states: seq<State>, actions: seq<Action>, i: nat, r: Runtime)
    requires Run(kind, states, actions) && i < |states|
    requires r in states[i].runtimes || states[i].cached == Some(r)
    ensures r.tokenState < |states[i].tokenStates|
    ensures Bound(states[i].issued, states[i].tokenStates[r.tokenState], r.application)
  {
    RunKeepsInv(kind, states, actions, i);
  }

  ghost predicate NoSave(actions: seq<Action>, i: nat, j: nat)
    requires j <= |actions|
  {
    forall k :: i <= k < j ==> !actions[k].Save?
  }

  lemma OnlySaveMoves(s: State, action: Action)
    requires Inv(s) && !action.Save? && Next(s, action).Some?
    ensures Stored(Next(s, action).value.secrets) == Stored(s.secrets)
  {
    hide Stored, TokensOf, Refreshed, Requested, SavedSecrets, PersistedSecrets, Issue, Usable, Trimmed, Complete;
    hide SecretsBound, RuntimesBound, SnapshotsBound, Bound, TrimmedApplication;
    if action.Persist? {
      PersistIsGuarded(s.kind, s.secrets, action.write);
    }
  }

  // Only the credential step moves the stored application, so from a save on, however
  // late the refreshes, exchanges and persists begun before it arrive, no token issued
  // only for another application is stored.
  lemma {:induction false} SavedApplicationHolds(kind: Kind, states: seq<State>, actions: seq<Action>, i: nat, j: nat)
    requires Run(kind, states, actions) && i <= j < |states| && NoSave(actions, i, j)
    ensures Stored(states[j].secrets) == Stored(states[i].secrets)
    decreases j
  {
    hide Stored, Next, Inv;
    if i < j {
      var k := j - 1;
      assert Next(states[k], actions[k]) == Some(states[k + 1]);
      SavedApplicationHolds(kind, states, actions, i, k);
      RunKeepsInv(kind, states, actions, k);
      OnlySaveMoves(states[k], actions[k]);
    }
  }

  lemma LateRefreshIsDropped(
    kind: Kind, states: seq<State>, actions: seq<Action>, i: nat, j: nat, token: string)
    requires Run(kind, states, actions) && i < j < |states| && actions[i].Save? && NoSave(actions, i + 1, j)
    requires token != "" && (token, Stored(states[i + 1].secrets)) !in states[j].issued
    ensures TokensOf(states[j].kind, states[j].secrets).access != token
    ensures TokensOf(states[j].kind, states[j].secrets).refresh != token
  {
    hide Next, Stored, TokensOf;
    SavedApplicationHolds(kind, states, actions, i + 1, j);
    StoredTokensAreBound(kind, states, actions, j);
  }

  // ---- Which tokens are stored ----

  const NO_TOKENS := Tokens("", "", "")

  // What a write leaves stored.
  function Kept(kind: Kind, t: Tokens): Tokens {
    if kind.BaiduOpen? then Trimmed(t) else Trimmed(t).(refresh := "")
  }

  // The tokens a step writes: an accepted persist its own, a save that changes the
  // application none.
  ghost function Written(s: State, action: Action): Option<Tokens> {
    match action
    case Save(clientId, clientSecret) =>
      var a := Requested(s.kind, s.secrets, clientId, clientSecret);
      if a.Some? && (s.kind.Pan123? || a.value != Stored(s.secrets)) then Some(NO_TOKENS) else None
    case Persist(w) => if Accepted(s.kind, s.secrets, w) then Some(Kept(s.kind, w.tokens)) else None
    case _ => None
  }

  lemma StepWrites(s: State, action: Action)
    requires Inv(s) && Next(s, action).Some?
    ensures Next(s, action).value.kind == s.kind
    ensures TokensOf(s.kind, Next(s, action).value.secrets)
         == if Written(s, action).Some? then Written(s, action).value else TokensOf(s.kind, s.secrets)
  {
    hide TokensOf, Stored, Refreshed, Issue, SecretsBound, RuntimesBound, SnapshotsBound, Bound, Complete;
    match action
    case Save(clientId, clientSecret) =>
      RequestedIsTrimmed(s.kind, s.secrets, clientId, clientSecret);
      SaveStores(s.kind, s.secrets, Requested(s.kind, s.secrets, clientId, clientSecret).value);
      hide Requested, SavedSecrets, TrimmedApplication;
    case Persist(w) =>
      PersistIsGuarded(s.kind, s.secrets, w);
      hide PersistedSecrets, Usable, Trimmed;
    case _ =>
      hide Requested, SavedSecrets, PersistedSecrets, Usable, Trimmed;
  }

  // The last tokens written before the j-th state.
  ghost function LastWritten(states: seq<State>, actions: seq<Action>, j: nat): Tokens
    requires |states| == |actions| + 1 && j <= |actions|
  {
    if j == 0 then NO_TOKENS
    else if Written(states[j - 1], actions[j - 1]).Some? then Written(states[j - 1], actions[j - 1]).value
    else LastWritten(states, actions, j - 1)
  }

  lemma InitialTokens(kind: Kind)
    ensures Initial(kind).kind == kind && TokensOf(kind, Initial(kind).secrets) == NO_TOKENS
  {
    TrimEmpty();
    hide TrimSpace;
  }

  // In every reachable state the stored tokens are the last ones written.
  lemma {:induction false} StoredAreLastWritten(kind: Kind, states: seq<State>, actions: seq<Action>, j: nat)
    requires Run(kind, states, actions) && j < |states|
    ensures states[j].kind == kind
    ensures TokensOf(kind, states[j].secrets) == LastWritten(states, actions, j)
  {
    hide Inv, Next, Written, TokensOf, Initial;
    if j == 0 {
      InitialTokens(kind);
    } else {
      var k := j - 1;
      assert Next(states[k], actions[k]) == Some(states[k + 1]);
      StoredAreLastWritten(kind, states, actions, k);
      RunKeepsInv(kind, states, actions, k);
      StepWrites(states[k], actions[k]);
    }
  }

  // Tokens are written at the i-th step, and no other ones between it and the j-th state.
  ghost predicate WrittenLast(states: seq<State>, actions: seq<Action>, i: nat, j: nat, t: Tokens)
    requires |states| == |actions| + 1 && j <= |actions|
  {
    && i < j && Written(states[i], actions[i]) == Some(t)
    && forall n :: i < n < j ==> Written(states[n], actions[n]) == None || Written(states[n], actions[n]) == Some(t)
  }

  lemma {:induction false} LastWrittenIff(states: seq<State>, actions: seq<Action>, j: nat, t: Tokens)
    requires |states| == |actions| + 1 && j <= |actions| && t != NO_TOKENS
    ensures LastWritten(states, actions, j) == t <==> exists i: nat :: WrittenLast(states, actions, i, j, t)
  {
    hide Written;
    if j > 0 {
      var k := j - 1;
      LastWrittenIff(states, actions, k, t);
      if LastWritten(states, actions, j) == t {
        if Written(states[k], actions[k]).Some? {
          assert WrittenLast(states, actions, k, j, t);
        } else {
          var i: nat :| WrittenLast(states, actions, i, k, t);
          assert WrittenLast(states, actions, i, j, t);
        }
      }
      if i: nat :| WrittenLast(states, actions, i, j, t) {
        if i < k {
          assert WrittenLast(states, actions, i, k, t);
        }
      }
    }
  }

  // After a refresh has been answered with new tokens, those are the stored ones if and
  // only if its write was accepted, and no other tokens have been written since.
  lemma RefreshStoredIff(kind: Kind, states: seq<State>, actions: seq<Action>, r: nat, j: nat, t: Tokens)
    requires Run(kind, states, actions) && r < j < |states| && actions[r].Refresh? && t != NO_TOKENS
    requires forall n :: 0 <= n < r ==> Written(states[n], actions[n]) != Some(t)
    ensures TokensOf(kind, states[j].secrets) == t <==> exists i: nat :: r < i && WrittenLast(states, actions, i, j, t)
  {
    StoredAreLastWritten(kind, states, actions, j);
    LastWrittenIff(states, actions, j, t);
    assert Written(states[r], actions[r]) == None;
    hide Written, TokensOf, Next;
  }

  lemma PersistStores(s: State, w: Write)
    requires w in s.writes && TrimmedApplication(w.application) && w.application == Stored(s.secrets)
    requires Usable(s.kind, Trimmed(w.tokens))
    ensures Next(s, Persist(w)).Some?
    ensures var t := Next(s, Persist(w)).value;
            && TokensOf(s.kind, t.secrets) == Kept(s.kind, w.tokens) && Stored(t.secrets) == Stored(s.secrets)
            && t == s.(secrets := t.secrets)
  {
    PersistIsGuarded(s.kind, s.secrets, w);
    hide TokensOf, Stored, PersistedSecrets, Usable, Trimmed;
  }

  // The write a refresh leaves, and what it does not touch.
  lemma RefreshWrites(s: State, r: Runtime, answer: Tokens)
    requires Inv(s) && Next(s, Refresh(r, answer)).Some?
    ensures var w := Write(r.application, Refreshed(s.kind, s.tokenStates[r.tokenState], answer));
            var t := Next(s, Refresh(r, answer)).value;
            && t.kind == s.kind && t.secrets == s.secrets && t.runtimes == s.runtimes && t.writes == s.writes + {w}
            && |t.tokenStates| == |s.tokenStates|
            && (forall i :: 0 <= i < |s.tokenStates| && i != r.tokenState ==> t.tokenStates[i] == s.tokenStates[i])
            && Usable(s.kind, Trimmed(w.tokens)) && TrimmedApplication(w.application)
  {
    RefreshedIsUsable(s.kind, s.tokenStates[r.tokenState], answer);
    hide TokensOf, Stored, Refreshed, Issue, Usable, Trimmed, TrimmedApplication, RuntimesBound, SecretsBound;
  }

  // Two runtimes of the stored application with token states of their own, as they are
  // built before and after an invalidation: the older answer, persisted late, replaces
  // the newer one.
  lemma OlderRefreshStored(s: State, older: Runtime, newer: Runtime, first: Tokens, second: Tokens)
    requires Inv(s) && Next(s, Refresh(older, first)).Some? && Next(s, Refresh(newer, second)).Some?
    requires older.tokenState != newer.tokenState
    requires older.application == newer.application == Stored(s.secrets)
    ensures var w := Write(older.application, Refreshed(s.kind, s.tokenStates[older.tokenState], first));
            var late := Write(newer.application, Refreshed(s.kind, s.tokenStates[newer.tokenState], second));
            var s1 := Next(s, Refresh(older, first)).value;
            Next(s1, Refresh(newer, second)).Some?
            && var s2 := Next(s1, Refresh(newer, second)).value;
            Next(s2, Persist(late)).Some?
            && var s3 := Next(s2, Persist(late)).value;
            Next(s3, Persist(w)).Some?
            && TokensOf(s.kind, s3.secrets) == Kept(s.kind, late.tokens)
            && TokensOf(s.kind, Next(s3, Persist(w)).value.secrets) == Kept(s.kind, w.tokens)
  {
    var w := Write(older.application, Refreshed(s.kind, s.tokenStates[older.tokenState], first));
    var late := Write(newer.application, Refreshed(s.kind, s.tokenStates[newer.tokenState], second));
    var s1 := Next(s, Refresh(older, first)).value;
    RefreshWrites(s, older, first);
    StepKeepsInv(s, Refresh(older, first));
    RefreshEnabled(s, s1, newer, second);
    hide *;
    RefreshWrites(s1, newer, second);
    var s2 := Next(s1, Refresh(newer, second)).value;
    PersistStores(s2, late);
    PersistStores(Next(s2, Persist(late)).value, w);
  }

  lemma RefreshEnabled(s: State, t: State, r: Runtime, answer: Tokens)
    requires Next(s, Refresh(r, answer)).Some? && t.kind == s.kind && t.runtimes == s.runtimes
    requires |t.tokenStates| == |s.tokenStates| && t.tokenStates[r.tokenState] == s.tokenStates[r.tokenState]
    ensures Next(t, Refresh(r, answer)).Some?
  {
    hide Usable, Trimmed, Refreshed, Issue;
  }

  lemma RefreshedIsUsable(kind: Kind, t: Tokens, answer: Tokens)
    requires Usable(kind, Trimmed(answer))
    ensures Usable(kind, Trimmed(Refreshed(kind, t, answer)))
  {
    TrimIdempotent(answer.access);
    TrimIdempotent(answer.refresh);
    hide TrimSpace;
  }

  const FIRST := Tokens("a", "b", "")
  const SECOND := Tokens("c", "d", "")

  lemma OneCharacter(s: string)
    requires |s| == 1 && !IsSpace(s[0])
    ensures TrimSpace(s) == s
  {
  }

  lemma Constants()
    ensures TrimSpace("i") == "i" && TrimSpace("s") == "s" && TrimSpace("") == ""
    ensures Trimmed(FIRST) == FIRST && Trimmed(SECOND) == SECOND && FIRST != SECOND
    ensures Kept(BaiduOpen, FIRST) == FIRST && Kept(BaiduOpen, SECOND) == SECOND
  {
    OneCharacter("i");
    OneCharacter("s");
    OneCharacter("a");
    OneCharacter("b");
    OneCharacter("c");
    OneCharacter("d");
    TrimEmpty();
    assert "a"[0] != "c"[0];
    hide TrimSpace;
  }

  lemma UsableConstants()
    ensures Initial(BaiduOpen).kind.BaiduOpen?
    ensures Usable(BaiduOpen, Trimmed(FIRST)) && Usable(BaiduOpen, Trimmed(SECOND))
    ensures Complete(Application("i", "s")) && TrimmedApplication(Application("i", "s"))
  {
    Constants();
    hide TrimSpace, Trimmed;
  }

  lemma LoadsRows(s: State)
    ensures Next(s, Load) == Some(s.(snapshots := s.snapshots + {s.secrets}))
  {
  }

  // A save of the first application of a provider.
  lemma FirstSave() returns (rows: Secrets)
    ensures Stored(rows) == Application("i", "s") && TokensOf(BaiduOpen, rows) == NO_TOKENS
    ensures Next(Initial(BaiduOpen), Save("i", "s")) == Some(Initial(BaiduOpen).(secrets := rows))
  {
    Constants();
    var a := Application("i", "s");
    assert TrimmedApplication(a) && Complete(a);
    SaveStores(BaiduOpen, map[], a);
    rows := SavedSecrets(BaiduOpen, map[], a);
    assert Stored(map[]) == Application("", "");
    assert Requested(BaiduOpen, map[], "i", "s") == Some(a);
    hide TrimSpace, SavedSecrets, Requested, TokensOf, Stored;
  }

  lemma Exchanged(s: State, snapshot: Secrets, answer: Tokens)
    requires s.kind.BaiduOpen? && snapshot in s.snapshots && Complete(Stored(snapshot)) && Usable(s.kind, Trimmed(answer))
    ensures Next(s, Exchange(snapshot, answer))
         == Some(s.(writes := s.writes + {Write(Stored(snapshot), answer)},
                    issued := Issue(s.issued, Stored(snapshot), answer)))
  {
    hide Stored, Issue, Usable, Trimmed;
  }

  // Two exchanges for one application, persisted in the other order.
  lemma TwoCallbacks(s: State, rows: Secrets, a: Application) returns (states: seq<State>, actions: seq<Action>)
    requires s.kind.BaiduOpen? && s.secrets == rows && rows in s.snapshots && Stored(rows) == a
    requires Complete(a) && TrimmedApplication(a) && Usable(BaiduOpen, Trimmed(FIRST)) && Usable(BaiduOpen, Trimmed(SECOND))
    ensures |states| == 5 && states[0] == s
    ensures actions == [Exchange(rows, FIRST), Exchange(rows, SECOND), Persist(Write(a, SECOND)), Persist(Write(a, FIRST))]
    ensures forall i :: 0 <= i < 4 ==> Next(states[i], actions[i]) == Some(states[i + 1])
    ensures TokensOf(BaiduOpen, states[3].secrets) == Kept(BaiduOpen, SECOND)
    ensures TokensOf(BaiduOpen, states[4].secrets) == Kept(BaiduOpen, FIRST)
  {
    hide Next, TokensOf, Stored, Usable, Trimmed, Issue, Complete, TrimmedApplication, Kept, FIRST, SECOND;
    Exchanged(s, rows, FIRST);
    var s3 := Next(s, Exchange(rows, FIRST)).value;
    Exchanged(s3, rows, SECOND);
    var s4 := Next(s3, Exchange(rows, SECOND)).value;
    PersistStores(s4, Write(a, SECOND));
    var s5 := Next(s4, Persist(Write(a, SECOND))).value;
    PersistStores(s5, Write(a, FIRST));
    states := [s, s3, s4, s5, Next(s5, Persist(Write(a, FIRST))).value];
    actions := [Exchange(rows, FIRST), Exchange(rows, SECOND), Persist(Write(a, SECOND)), Persist(Write(a, FIRST))];
  }

  // Two callbacks of one application: the tokens of the first, persisted last, replace
  // those of the second.
  lemma OlderTokensStored() returns (states: seq<State>, actions: seq<Action>)
    ensures Run(BaiduOpen, states, actions) && |actions| == 6
    ensures actions[2].Exchange? && actions[2].answer == FIRST && actions[3].Exchange? && actions[3].answer == SECOND
    ensures TokensOf(BaiduOpen, states[5].secrets) == SECOND && TokensOf(BaiduOpen, states[6].secrets) == FIRST
  {
    hide Next, TrimSpace, TokensOf, Stored, Usable, Trimmed, Complete, TrimmedApplication, Kept, FIRST, SECOND, Initial;
    Constants();
    var rows := FirstSave();
    var a := Application("i", "s");
    var s0 := Initial(BaiduOpen);
    var s1 := s0.(secrets := rows);
    var s2 := s1.(snapshots := s1.snapshots + {rows});
    LoadsRows(s1);
    UsableConstants();
    var rest, more := TwoCallbacks(s2, rows, a);
    states, actions := [s0, s1] + rest, [Save("i", "s"), Load] + more;
    forall i | 0 <= i < 6 ensures Next(states[i], actions[i]) == Some(states[i + 1]) {
      if i >= 2 {
        assert states[i] == rest[i - 2] && actions[i] == more[i - 2] && states[i + 1] == rest[i - 2 + 1];
      }
    }
  }

  // ---- Which tokens a runtime holds ----

  // A refresh through the token state, which leaves these tokens in it.
  ghost predicate Refreshes(kind: Kind, action: Action, k: nat, t: Tokens) {
    action.Refresh? && action.runtime.tokenState == k && t == Kept(kind, action.answer)
  }

  // A build that finds no runtime of its application cached.
  ghost predicate BuildsFresh(s: State, action: Action) {
    action.Build? && (s.cached.Some? ==> s.cached.value.application != Stored(action.snapshot))
  }

  lemma StepKeepsTokens(s: State, action: Action, k: nat)
    requires Next(s, action).Some? && k < |s.tokenStates|
    ensures var t := Next(s, action).value;
            && k < |t.tokenStates|
            && (t.tokenStates[k] == s.tokenStates[k] || Refreshes(s.kind, action, k, t.tokenStates[k]))
            && (action.Refresh? && action.runtime.tokenState == k ==> Refreshes(s.kind, action, k, t.tokenStates[k]))
  {
    hide TrimSpace, TokensOf, Stored, Requested, SavedSecrets, PersistedSecrets, Issue, Complete;
  }

  ghost predicate NoRefresh(actions: seq<Action>, i: nat, j: nat, k: nat)
    requires j <= |actions|
  {
    forall n :: i <= n < j ==> !(actions[n].Refresh? && actions[n].runtime.tokenState == k)
  }

  // A token state holds what it was made with, or the answer of the last refresh through it.
  lemma {:induction false} TokensChangeByRefresh(
    kind: Kind, states: seq<State>, actions: seq<Action>, i: nat, j: nat, k: nat)
    requires Run(kind, states, actions) && i <= j < |states| && k < |states[i].tokenStates|
    ensures k < |states[j].tokenStates|
    ensures NoRefresh(actions, i, j, k) ==> states[j].tokenStates[k] == states[i].tokenStates[k]
    ensures !NoRefresh(actions, i, j, k) ==>
              exists m :: i <= m < j && Refreshes(kind, actions[m], k, states[j].tokenStates[k])
                       && NoRefresh(actions, m + 1, j, k)
    decreases j
  {
    if i < j {
      var n := j - 1;
      assert Next(states[n], actions[n]) == Some(states[n + 1]);
      StoredAreLastWritten(kind, states, actions, n);
      hide *;
      TokensChangeByRefresh(kind, states, actions, i, n, k);
      StepKeepsTokens(states[n], actions[n], k);
      OneMoreAction(actions, i, n, k);
      if NoRefresh(actions, n, j, k) {
        if m :| i <= m < n && Refreshes(kind, actions[m], k, states[n].tokenStates[k]) && NoRefresh(actions, m + 1, n, k) {
          OneMoreAction(actions, m + 1, n, k);
        }
      } else {
        NoneLeft(actions, j, k);
      }
    }
  }

  lemma OneMoreAction(actions: seq<Action>, i: nat, n: nat, k: nat)
    requires i <= n < |actions|
    ensures NoRefresh(actions, i, n + 1, k) <==> NoRefresh(actions, i, n, k) && NoRefresh(actions, n, n + 1, k)
    ensures NoRefresh(actions, n, n + 1, k) <==> !(actions[n].Refresh? && actions[n].runtime.tokenState == k)
  {
  }

  lemma NoneLeft(actions: seq<Action>, j: nat, k: nat)
    requires j <= |actions|
    ensures NoRefresh(actions, j, j, k)
  {
  }

  lemma BuildsWith(s: State, action: Action)
    requires Next(s, action).Some? && BuildsFresh(s, action)
    ensures var t := Next(s, action).value;
            && t.cached.Some? && t.cached.value.application == Stored(action.snapshot)
            && t.cached.value.rootPath == action.rootPath
            && t.cached.value.tokenState == |s.tokenStates| < |t.tokenStates|
            && t.tokenStates[|s.tokenStates|] == TokensOf(s.kind, action.snapshot)
  {
    hide TokensOf, Stored;
  }

  // A runtime that is built without a cached one of its application, from rows loaded at
  // some earlier state, holds the tokens that were written last before that state.
  lemma BuiltHoldsLastWritten(kind: Kind, states: seq<State>, actions: seq<Action>, l: nat, i: nat)
    requires Run(kind, states, actions) && l <= i < |actions| && BuildsFresh(states[i], actions[i])
    requires actions[i].snapshot == states[l].secrets
    ensures var t := states[i + 1];
            && t.cached.Some? && t.cached.value.tokenState < |t.tokenStates|
            && t.cached.value.application == Stored(states[l].secrets)
            && t.tokenStates[t.cached.value.tokenState] == LastWritten(states, actions, l)
  {
    assert Next(states[i], actions[i]) == Some(states[i + 1]);
    StoredAreLastWritten(kind, states, actions, l);
    StoredAreLastWritten(kind, states, actions, i);
    hide *;
    BuildsWith(states[i], actions[i]);
  }

  // What is cached was cached by the last build, and an invalidation forgets it: the next
  // build after one makes a runtime with the tokens of its snapshot.
  lemma {:induction false} InvalidatedIsRebuilt(
    kind: Kind, states: seq<State>, actions: seq<Action>, i: nat, j: nat)
    requires Run(kind, states, actions) && i < j < |states| && actions[i].Invalidate?
    requires forall n :: i < n < j ==> !actions[n].Build?
    ensures states[j].cached.None?
    ensures j < |actions| && actions[j].Build? ==> BuildsFresh(states[j], actions[j])
    decreases j
  {
    var n := j - 1;
    assert Next(states[n], actions[n]) == Some(states[n + 1]);
    hide TokensOf, Stored, Requested, SavedSecrets, PersistedSecrets, Issue, Complete, Usable, Trimmed, Refreshed;
    if i < n {
      InvalidatedIsRebuilt(kind, states, actions, i, n);
    }
  }

  // Every snapshot is of rows that were stored at some earlier state.
  lemma {:induction false} SnapshotWasStored(kind: Kind, states: seq<State>, actions: seq<Action>, i: nat, rows: Secrets)
    returns (l: nat)
    requires Run(kind, states, actions) && i < |states| && rows in states[i].snapshots
    ensures l < i && states[l].secrets == rows
    decreases i
  {
    var n := i - 1;
    assert i > 0;
    assert Next(states[n], actions[n]) == Some(states[n + 1]);
    if rows in states[n].snapshots {
      hide Next;
      l := SnapshotWasStored(kind, states, actions, n, rows);
    } else {
      hide TokensOf, Stored, Requested, SavedSecrets, PersistedSecrets, Issue, Complete, Usable, Trimmed, Refreshed;
      l := n;
    }
  }

  // ---- What the steps leave alone ----

  lemma SaveKeepsOthers(kind: Kind, rows: Secrets, a: Application, t: string)
    requires t !in TokenTypes(kind) && t != CLIENT_ID && t != CLIENT_SECRET
    ensures var after := SavedSecrets(kind, rows, a);
            (t in after <==> t in rows) && (t in after && t in rows ==> after[t] == rows[t])
  {
    SavedRows(kind, rows, a);
  }

  lemma PersistKeepsOthers(kind: Kind, rows: Secrets, w: Write, t: string)
    requires t !in TokenTypes(kind)
    ensures var after := PersistedSecrets(kind, rows, w);
            (t in after <==> t in rows) && (t in after && t in rows ==> after[t] == rows[t])
  {
    TokenRowsAre(kind, rows, Trimmed(w.tokens));
    hide Replaced, Accepted, Trimmed;
  }

  ghost predicate SameRow(a: Secrets, b: Secrets, t: string) {
    (t in a <==> t in b) && (t in a && t in b ==> a[t] == b[t])
  }

  // What the credential step comes to: refused without an id or a secret, where a baiduopen
  // provider keeps the secret it has; else the application is stored, without tokens if it
  // is new or the provider a 123pan one.
  lemma SaveMeans(kind: Kind, rows: Secrets, clientId: string, clientSecret: string)
    ensures var requested := Requested(kind, rows, clientId, clientSecret);
            var secret := if TrimSpace(clientSecret) == "" && kind.BaiduOpen? then Stored(rows).clientSecret
                          else TrimSpace(clientSecret);
            && (requested.Some? <==> TrimSpace(clientId) != "" && secret != "")
            && (requested.Some? ==>
                  var after := SavedSecrets(kind, rows, requested.value);
                  && Stored(after) == Application(TrimSpace(clientId), secret)
                  && (kind.Pan123? || Stored(after) != Stored(rows) ==> TokensOf(kind, after) == NO_TOKENS)
                  && (kind.BaiduOpen? && Stored(after) == Stored(rows) ==> after == rows)
                  && forall t :: t !in TokenTypes(kind) && t != CLIENT_ID && t != CLIENT_SECRET ==> SameRow(after, rows, t))
  {
    var requested := Requested(kind, rows, clientId, clientSecret);
    if requested.Some? {
      RequestedIsTrimmed(kind, rows, clientId, clientSecret);
      SaveStores(kind, rows, requested.value);
      hide SavedSecrets, TokenTypes, TrimSpace;
      forall t | t !in TokenTypes(kind) && t != CLIENT_ID && t != CLIENT_SECRET
        ensures SameRow(SavedSecrets(kind, rows, requested.value), rows, t)
      {
        SaveKeepsOthers(kind, rows, requested.value, t);
      }
    }
  }

  // What a persist comes to: dropped without an access token, for baiduopen also without a
  // refresh token, and for another application than the stored one; else its tokens are
  // stored, and nothing else.
  ghost predicate TakesWrite(kind: Kind, rows: Secrets, w: Write, persisted: bool, after: Secrets) {
    && (persisted <==>
          && TrimSpace(w.tokens.access) != "" && (kind.BaiduOpen? ==> TrimSpace(w.tokens.refresh) != "")
          && Stored(rows) == Application(TrimSpace(w.application.clientId), TrimSpace(w.application.clientSecret)))
    && (persisted ==>
          TokensOf(kind, after) == Tokens(TrimSpace(w.tokens.access),
                                          if kind.BaiduOpen? then TrimSpace(w.tokens.refresh) else "",
                                          TrimSpace(w.tokens.expiresAt)))
    && (!persisted ==> after == rows)
    && Stored(after) == Stored(rows)
    && forall t :: t !in TokenTypes(kind) ==> SameRow(after, rows, t)
  }

  lemma PersistMeans(kind: Kind, rows: Secrets, w: Write)
    ensures TakesWrite(kind, rows, w, Accepted(kind, rows, w), PersistedSecrets(kind, rows, w))
  {
    TokenRows(kind, rows, Trimmed(w.tokens));
    TrimIdempotent(w.tokens.access);
    TrimIdempotent(w.tokens.refresh);
    TrimIdempotent(w.tokens.expiresAt);
    forall t | t !in TokenTypes(kind) ensures SameRow(PersistedSecrets(kind, rows, w), rows, t) {
      PersistKeepsOthers(kind, rows, w, t);
    }
    hide TrimSpace, TokensOf, Stored, TokenTypes, Replaced, SameRow;
  }

  // ---- The table, statement by statement ----

  datatype Row = Row(providerId: string, item: Item)

  // Keyed by provider and secret type.
  type Table = map<string, Secrets>

  // The rows of one provider.
  function RowsOf(table: Table, providerId: string): Secrets {
    if providerId in table then table[providerId] else map[]
  }

  function ItemsOf(rows: seq<Row>): seq<Item> {
    seq(|rows|, i requires 0 <= i < |rows| => rows[i].item)
  }

  function TypesOf(types: seq<string>): set<string> {
    set t | t in types
  }

  // The table as it was, but for one provider whose rows are given.
  ghost predicate OnlyRows(table: Table, before: Table, providerId: string, rows: Secrets) {
    && RowsOf(table, providerId) == rows
    && forall q :: q != providerId ==> RowsOf(table, q) == RowsOf(before, q)
  }

  lemma RowsReplaced(table: Table, before: Table, p: string, was: Secrets, rows: Secrets)
    requires OnlyRows(table, before, p, was)
    ensures OnlyRows(table[p := rows], before, p, rows)
  {
  }

  // Nothing done yet.
  lemma NothingReplaced(table: Table, p: string, items: seq<Row>, types: seq<string>)
    ensures var rows := RowsOf(table, p);
            && OnlyRows(table, table, p, rows - TypesOf(types[..0]))
            && Upserted(rows - TypesOf(types), ItemsOf(items[..0])) == rows - TypesOf(types)
  {
    assert RowsOf(table, p) - TypesOf(types[..0]) == RowsOf(table, p);
  }

  lemma DeletedNext(rows: Secrets, types: seq<string>, i: nat)
    requires i < |types|
    ensures rows - TypesOf(types[..i + 1]) == (rows - TypesOf(types[..i])) - {types[i]}
  {
    assert TypesOf(types[..i + 1]) == TypesOf(types[..i]) + {types[i]};
  }

  lemma ItemsNext(rows: Secrets, items: seq<Row>, i: nat)
    requires i < |items|
    ensures Upserted(rows, ItemsOf(items[..i + 1]))
         == Upserted(rows, ItemsOf(items[..i]))[items[i].item.secretType := items[i].item.value]
  {
    assert ItemsOf(items[..i + 1]) == ItemsOf(items[..i]) + [items[i].item];
    UpsertedNext(rows, ItemsOf(items[..i]), items[i].item);
  }

  class SecretRepository {
    var table: Table

    constructor ()
      ensures table == map[]
    {
      table := map[];
    }

    // replaceMany: one transaction, rolled back when an item is for another provider.
    method ReplaceMany(providerId: string, items: seq<Row>, deleteTypes: seq<string>) returns (ok: bool)
      modifies this
      ensures ok <==> forall i :: 0 <= i < |items| ==> items[i].providerId == providerId
      ensures !ok ==> table == old(table)
      ensures ok ==> OnlyRows(table, old(table), providerId,
                              Replaced(RowsOf(old(table), providerId), ItemsOf(items), TypesOf(deleteTypes)))
    {
      var tx := table;
      ghost var rows := RowsOf(tx, providerId);
      ghost var base := rows - TypesOf(deleteTypes);
      NothingReplaced(tx, providerId, items, deleteTypes);
      assert deleteTypes[..|deleteTypes|] == deleteTypes && items[..|items|] == items;
      hide RowsOf, TypesOf, ItemsOf, Upserted;
      for i := 0 to |deleteTypes|
        invariant table == old(table)
        invariant OnlyRows(tx, table, providerId, rows - TypesOf(deleteTypes[..i]))
      {
        var left := RowsOf(tx, providerId) - {deleteTypes[i]};
        RowsReplaced(tx, table, providerId, rows - TypesOf(deleteTypes[..i]), left);
        DeletedNext(rows, deleteTypes, i);
        tx := tx[providerId := left];
      }
      for i := 0 to |items|
        invariant table == old(table)
        invariant forall k :: 0 <= k < i ==> items[k].providerId == providerId
        invariant OnlyRows(tx, table, providerId, Upserted(base, ItemsOf(items[..i])))
      {
        if items[i].providerId != providerId {
          return false;
        }
        var written := RowsOf(tx, providerId)[items[i].item.secretType := items[i].item.value];
        RowsReplaced(tx, table, providerId, Upserted(base, ItemsOf(items[..i])), written);
        ItemsNext(base, items, i);
        tx := tx[providerId := written];
      }
      table := tx;
      return true;
    }
  }

  // ---- The object ----

  // One provider's credentials: its rows, its entry in the provider map, and the token
  // states that runtimes share by reference.
  class ProviderAuth {
    const kind: Kind
    var secrets: Secrets
    var cached: Option<Runtime>
    var runtimes: set<Runtime>
    var tokenStates: seq<Tokens>
    var snapshots: set<Secrets>
    var writes: set<Write>
    var issued: set<(string, Application)>

    ghost function Snapshot(): State
      reads this
    {
      State(kind, secrets, cached, runtimes, tokenStates, snapshots, writes, issued)
    }

    constructor (kind: Kind)
      ensures Snapshot() == Initial(kind)
    {
      this.kind := kind;
      secrets, cached, runtimes, tokenStates, snapshots, writes, issued := map[], None, {}, [], {}, {}, {};
    }

    // The locked part of the credential handlers.
    method SaveCredentials(clientId: string, clientSecret: string) returns (saved: bool)
      modifies this`secrets
      ensures saved <==> Next(old(Snapshot()), Save(clientId, clientSecret)).Some?
      ensures saved ==> Next(old(Snapshot()), Save(clientId, clientSecret)) == Some(Snapshot())
      ensures !saved ==> Snapshot() == old(Snapshot())
      ensures var secret := if TrimSpace(clientSecret) == "" && kind.BaiduOpen? then Stored(old(secrets)).clientSecret
                            else TrimSpace(clientSecret);
              && (saved <==> TrimSpace(clientId) != "" && secret != "")
              && (saved ==> Stored(secrets) == Application(TrimSpace(clientId), secret))
      ensures saved && (kind.Pan123? || Stored(secrets) != Stored(old(secrets))) ==> TokensOf(kind, secrets) == NO_TOKENS
      ensures saved && kind.BaiduOpen? && Stored(secrets) == Stored(old(secrets)) ==> secrets == old(secrets)
    {
      SaveMeans(kind, secrets, clientId, clientSecret);
      hide TrimSpace, Replaced, TokenTypes, TokensOf, SameRow;
      var id, secret := TrimSpace(clientId), TrimSpace(clientSecret);
      if id == "" {
        return false;
      }
      if secret == "" && kind.BaiduOpen? {
        secret := Value(secrets, CLIENT_SECRET);
      }
      if secret == "" {
        return false;
      }
      var changed := id != Value(secrets, CLIENT_ID) || secret != Value(secrets, CLIENT_SECRET);
      if changed || kind.Pan123? {
        secrets := Replaced(secrets, [Item(CLIENT_ID, id), Item(CLIENT_SECRET, secret)], TokenTypes(kind));
      }
      return true;
    }

    // persistProvider…Token(s).
    method PersistTokens(w: Write) returns (persisted: bool)
      requires w in writes
      modifies this`secrets
      ensures Next(old(Snapshot()), Persist(w)) == Some(Snapshot())
      ensures TakesWrite(kind, old(secrets), w, persisted, secrets)
    {
      PersistMeans(kind, secrets, w);
      hide TrimSpace, Replaced, TokenTypes, TakesWrite;
      var t := Tokens(TrimSpace(w.tokens.access), TrimSpace(w.tokens.refresh), TrimSpace(w.tokens.expiresAt));
      if t.access == "" || (kind.BaiduOpen? && t.refresh == "") {
        return false;
      }
      if Value(secrets, CLIENT_ID) != TrimSpace(w.application.clientId)
         || Value(secrets, CLIENT_SECRET) != TrimSpace(w.application.clientSecret) {
        return false;
      }
      var items := [Item(ACCESS_TOKEN, t.access)];
      if kind.BaiduOpen? {
        items := items + [Item(REFRESH_TOKEN, t.refresh)];
      }
      if t.expiresAt != "" {
        items := items + [Item(EXPIRES_AT, t.expiresAt)];
      }
      assert items == TokenItems(kind, t);
      secrets := Replaced(secrets, items, TokenTypes(kind));
      return true;
    }

    // getOrCreate…Provider, called with values loaded earlier.
    method GetOrCreateProvider(snapshot: Secrets, rootPath: string) returns (r: Runtime)
      requires snapshot in snapshots && Complete(Stored(snapshot))
      modifies this`cached, this`runtimes, this`tokenStates
      ensures Next(old(Snapshot()), Build(snapshot, rootPath)) == Some(Snapshot())
      ensures cached == Some(r) && r.rootPath == rootPath && r.application == Stored(snapshot)
      ensures if old(cached).Some? && old(cached).value.application == Stored(snapshot) then
                r.tokenState == old(cached).value.tokenState && tokenStates == old(tokenStates)
              else
                && r.tokenState == |old(tokenStates)| && tokenStates[..r.tokenState] == old(tokenStates)
                && |tokenStates| == r.tokenState + 1 && tokenStates[r.tokenState] == TokensOf(kind, snapshot)
    {
      var a := Application(Value(snapshot, CLIENT_ID), Value(snapshot, CLIENT_SECRET));
      if cached.Some? && cached.value.rootPath == rootPath && cached.value.application == a {
        return cached.value;
      }
      var tokenState;
      if cached.Some? && cached.value.application == a {
        tokenState := cached.value.tokenState;
      } else {
        tokenState := |tokenStates|;
        tokenStates := tokenStates + [TokensOf(kind, snapshot)];
      }
      r := Runtime(rootPath, a, tokenState);
      runtimes := runtimes + {r};
      cached := Some(r);
    }

    // refreshAccessToken once the cloud has answered; the write it leaves is a later step.
    method RefreshAccessToken(r: Runtime, answer: Tokens) returns (refreshed: bool)
      requires r in runtimes && r.tokenState < |tokenStates|
      modifies this`tokenStates, this`writes, this`issued
      ensures refreshed <==> Next(old(Snapshot()), Refresh(r, answer)).Some?
      ensures refreshed ==> Next(old(Snapshot()), Refresh(r, answer)) == Some(Snapshot())
      ensures !refreshed ==> Snapshot() == old(Snapshot())
      ensures refreshed <==> && TrimSpace(answer.access) != ""
                             && (kind.BaiduOpen? ==> TrimSpace(answer.refresh) != ""
                                                     && old(tokenStates)[r.tokenState].refresh != "")
      ensures refreshed ==>
                && tokenStates == old(tokenStates)[r.tokenState := Kept(kind, answer)]
                && writes == old(writes) + {Write(r.application, Kept(kind, answer))}
    {
      var t := tokenStates[r.tokenState];
      if kind.BaiduOpen? && t.refresh == "" {
        return false;
      }
      var n := Tokens(TrimSpace(answer.access), TrimSpace(answer.refresh), TrimSpace(answer.expiresAt));
      if n.access == "" || (kind.BaiduOpen? && n.refresh == "") {
        return false;
      }
      t := n.(refresh := if kind.BaiduOpen? then n.refresh else "");
      tokenStates := tokenStates[r.tokenState := t];
      writes := writes + {Write(r.application, t)};
      issued := Issue(issued, r.application, answer);
      return true;
    }
  }
}
