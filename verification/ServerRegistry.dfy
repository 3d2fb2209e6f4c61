/** The registered servers, as the service keeps them in the database. */
module ServerRegistry {
  import opened Wrappers

  const MAX_SERVERS := 10

  datatype Server = Server(id: int, name: string, enabled: bool, agentVersion: string, createdAt: int, updatedAt: int)

  /** Tokens are stored as digests; a digest stands for its token here. */
  datatype Row = Row(server: Server, token: string)

  datatype Error = InvalidInput | NotFound | InvalidToken | Disabled | ServerLimit | Storage

  /** The rows, and the last identifier ever given out. */
  datatype Ledger = Ledger(rows: map<int, Row>, lastId: nat) {
    ghost predicate Valid() {
      IdsFit() && TokensDiffer() && |rows| <= MAX_SERVERS
    }

    ghost predicate IdsFit() {
      forall id | id in rows :: 1 <= id <= lastId && rows[id].server.id == id
    }

    ghost predicate TokensDiffer() {
      forall i, j | i in rows && j in rows && rows[i].token == rows[j].token :: i == j
    }
  }

  predicate IsSpace(c: char) {
    c in [' ', '\t', '\n', '\r', '\U{0B}', '\U{0C}', '\U{85}', '\U{A0}', '\U{1680}', '\U{2028}', '\U{2029}', '\U{202F}',
          '\U{205F}', '\U{3000}'] || '\U{2000}' <= c <= '\U{200A}'
  }

  /** White space by code point. */
  lemma SpacesExactly(c: char)
    ensures IsSpace(c) <==>
      var n := c as int;
      || 9 <= n <= 13 || n == 32 || n == 133 || n == 160 || n == 5_760 || 8_192 <= n <= 8_202
      || n == 8_232 || n == 8_233 || n == 8_239 || n == 8_287 || n == 12_288
  {
  }

  function TrimSpace(s: string): (trimmed: string)
    ensures trimmed == "" || (!IsSpace(trimmed[0]) && !IsSpace(trimmed[|trimmed| - 1]))
  {
    if s == "" then ""
    else if IsSpace(s[0]) then TrimSpace(s[1..])
    else if IsSpace(s[|s| - 1]) then TrimSpace(s[..|s| - 1])
    else s
  }

  predicate IsTaken(l: Ledger, token: string) {
    exists id | id in l.rows :: l.rows[id].token == token
  }

  /** What is left of a string between characters of a kind at both ends. */
  ghost predicate IsInner(s: string, inner: string, kind: char -> bool) {
    exists i, j | 0 <= i <= j <= |s| :: s[i..j] == inner && AllOutside(s, i, j, kind)
  }

  predicate AllOutside(s: string, i: int, j: int, kind: char -> bool) {
    forall k | 0 <= k < |s| && (k < i || j <= k) :: kind(s[k])
  }

  lemma InnerAfterFirst(s: string, inner: string, kind: char -> bool)
    requires s != "" && kind(s[0]) && IsInner(s[1..], inner, kind)
    ensures IsInner(s, inner, kind)
  {
    var i, j :| 0 <= i <= j <= |s[1..]| && s[1..][i..j] == inner && AllOutside(s[1..], i, j, kind);
    assert s[i + 1..j + 1] == inner;
    assert forall k | 0 < k < |s| :: s[k] == s[1..][k - 1];
    assert AllOutside(s, i + 1, j + 1, kind);
  }

  lemma InnerBeforeLast(s: string, inner: string, kind: char -> bool)
    requires s != "" && kind(s[|s| - 1]) && IsInner(s[..|s| - 1], inner, kind)
    ensures IsInner(s, inner, kind)
  {
    var n := |s| - 1;
    var i, j :| 0 <= i <= j <= n && s[..n][i..j] == inner && AllOutside(s[..n], i, j, kind);
    assert s[i..j] == inner;
    assert forall k | 0 <= k < n :: s[k] == s[..n][k];
    assert AllOutside(s, i, j, kind);
  }

  /** Trimming takes white space from both ends, and, as it never leaves any there, all of it. */
  lemma {:induction false} TrimmedExactly(s: string)
    ensures IsInner(s, TrimSpace(s), IsSpace)
  {
    if s != "" && IsSpace(s[0]) {
      TrimmedExactly(s[1..]);
      InnerAfterFirst(s, TrimSpace(s[1..]), IsSpace);
    } else if s != "" && IsSpace(s[|s| - 1]) {
      TrimmedExactly(s[..|s| - 1]);
      InnerBeforeLast(s, TrimSpace(s[..|s| - 1]), IsSpace);
    } else {
      assert s[0..|s|] == s && AllOutside(s, 0, |s|, IsSpace);
    }
  }

  predicate SameRow(a: map<int, Row>, b: map<int, Row>, id: int) {
    (id in a <==> id in b) && (id in a ==> a[id] == b[id])
  }

  /** The server a token belongs to. */
  ghost function Holder(l: Ledger, token: string): (id: int)
    requires IsTaken(l, token)
    ensures id in l.rows && l.rows[id].token == token
  {
    var id :| id in l.rows && l.rows[id].token == token;
    id
  }

  ghost function Authenticated(l: Ledger, token: string): Result<Server, Error> {
    if !IsTaken(l, token) then Failure(InvalidToken)
    else
      var server := l.rows[Holder(l, token)].server;
      if server.enabled then Success(server) else Failure(Disabled)
  }

  function Created(l: Ledger, name: string, token: string, now: int): Ledger {
    var id := l.lastId + 1;
    Ledger(l.rows[id := Row(Server(id, name, true, "", now, now), token)], id)
  }

  predicate CanCreate(l: Ledger, name: string, token: string) {
    TrimSpace(name) != "" && |l.rows| < MAX_SERVERS && !IsTaken(l, token)
  }

  function AfterCreate(l: Ledger, name: string, token: string, now: int, fails: bool): Ledger {
    if CanCreate(l, name, token) && !fails then Created(l, TrimSpace(name), token, now) else l
  }

  function Changed(server: Server, name: Option<string>, enabled: Option<bool>, now: int): Server {
    server.(name := if name.Some? then name.value else server.name,
            enabled := if enabled.Some? then enabled.value else server.enabled,
            updatedAt := now)
  }

  function WithServer(l: Ledger, id: int, server: Server): Ledger
    requires id in l.rows
  {
    l.(rows := l.rows[id := l.rows[id].(server := server)])
  }

  function AfterUpdate(l: Ledger, id: int, name: Option<string>, enabled: Option<bool>, now: int, m: Mutation): Ledger {
    if id in l.rows && m != Refused then WithServer(l, id, Changed(l.rows[id].server, name, enabled, now)) else l
  }

  function AfterDelete(l: Ledger, id: int, m: Mutation): Ledger {
    if m != Refused then l.(rows := l.rows - {id}) else l
  }

  function AfterRotate(l: Ledger, id: int, token: string, now: int, fails: bool): Ledger {
    if id in l.rows && !fails && (IsTaken(l, token) ==> l.rows[id].token == token)
    then l.(rows := l.rows[id := Row(l.rows[id].server.(updatedAt := now), token)])
    else l
  }

  function AfterVersion(l: Ledger, id: int, version: string, m: Mutation): Ledger {
    if id in l.rows && m != Refused then WithServer(l, id, l.rows[id].server.(agentVersion := version)) else l
  }

  class Registry {
    var rows: map<int, Row>
    var lastId: nat

    ghost function Contents(): Ledger
      reads this
    {
      Ledger(rows, lastId)
    }

    constructor ()
      ensures Contents() == Ledger(map[], 0) && Contents().Valid()
    {
      rows, lastId := map[], 0;
    }

    method Create(name: string, token: string, now: int, fails: bool) returns (result: Result<Server, Error>)
      requires Contents().Valid()
      modifies this
      ensures Contents() == AfterCreate(old(Contents()), name, token, now, fails) && Contents().Valid()
      ensures result.Success? <==> CanCreate(old(Contents()), name, token) && !fails
      ensures result.Success? ==>
        result.value.id !in old(rows) && result.value.id in rows && result.value == rows[result.value.id].server
      ensures TrimSpace(name) == "" <==> result == Failure(InvalidInput)
      ensures result == Failure(ServerLimit) <==> TrimSpace(name) != "" && |old(rows)| >= 10
      ensures result.Failure? ==> Contents() == old(Contents())
      ensures result.Success? ==>
        && !(exists id | id in old(rows) :: old(rows)[id].token == token)
        && result.value == Server(old(lastId) + 1, TrimSpace(name), true, "", now, now) && lastId == old(lastId) + 1
        && rows == old(rows)[result.value.id := Row(result.value, token)]
    {
      var trimmed := TrimSpace(name);
      if trimmed == "" {
        return Failure(InvalidInput);
      }
      if |rows| >= MAX_SERVERS {
        return Failure(ServerLimit);
      }
      if fails || exists id | id in rows :: rows[id].token == token {
        return Failure(Storage);
      }
      CreatedIsValid(Contents(), trimmed, token, now);
      lastId := lastId + 1;
      var server := Server(lastId, trimmed, true, "", now, now);
      rows := rows[lastId := Row(server, token)];
      return Success(server);
    }

    /** The statement behind an update. */
    method ApplyUpdate(id: int, name: Option<string>, enabled: Option<bool>, now: int, m: Mutation)
      returns (result: Result<Server, Error>)
      requires Contents().Valid()
      modifies this
      ensures Contents() == AfterUpdate(old(Contents()), id, name, enabled, now, m) && Contents().Valid()
      ensures result.Success? <==> id in old(rows) && m == Done
      ensures result.Success? ==> result.value == rows[id].server
      ensures result.Failure? ==> result.error == if m != Refused && id !in old(rows) then NotFound else Storage
      ensures lastId == old(lastId) && forall other | other != id :: SameRow(old(rows), rows, other)
      ensures m == Refused || id !in old(rows) ==> rows == old(rows)
      ensures id in old(rows) && m != Refused ==>
        && id in rows && rows[id].token == old(rows)[id].token && rows[id].server.updatedAt == now
        && rows[id].server.name == (if name.Some? then name.value else old(rows)[id].server.name)
        && rows[id].server.enabled == (if enabled.Some? then enabled.value else old(rows)[id].server.enabled)
        && rows[id].server.agentVersion == old(rows)[id].server.agentVersion
        && rows[id].server.createdAt == old(rows)[id].server.createdAt
    {
      if m == Refused {
        return Failure(Storage);
      }
      if id !in rows {
        return Failure(NotFound);
      }
      var server := rows[id].server;
      server := server.(updatedAt := now);
      if name.Some? {
        server := server.(name := name.value);
      }
      if enabled.Some? {
        server := server.(enabled := enabled.value);
      }
      WithServerIsValid(Contents(), id, server);
      rows := rows[id := rows[id].(server := server)];
      if m == DoneButFailed {
        return Failure(Storage);
      }
      return Success(server);
    }

    /** The statement behind a deletion. */
    method ApplyDelete(id: int, m: Mutation) returns (result: Result<(), Error>)
      requires Contents().Valid()
      modifies this
      ensures Contents() == AfterDelete(old(Contents()), id, m) && Contents().Valid()
      ensures rows == (if m == Refused then old(rows) else old(rows) - {id}) && lastId == old(lastId)
      ensures result.Success? <==> id in old(rows) && m == Done
      ensures result.Failure? ==> result.error == if m == Done then NotFound else Storage
    {
      if m == Refused {
        return Failure(Storage);
      }
      var found := id in rows;
      DeleteIsValid(Contents(), id);
      rows := rows - {id};
      if m == DoneButFailed {
        return Failure(Storage);
      }
      if !found {
        return Failure(NotFound);
      }
      return Success(());
    }

    method RotateToken(id: int, token: string, now: int, fails: bool) returns (result: Result<Server, Error>)
      requires Contents().Valid()
      modifies this
      ensures Contents() == AfterRotate(old(Contents()), id, token, now, fails) && Contents().Valid()
      ensures result.Success? ==> id in rows && rows[id].token == token && result.value == rows[id].server
      ensures result == Failure(NotFound) <==> id !in old(rows) && !fails
      ensures result.Success? <==>
        !fails && id in old(rows) && forall other | other in old(rows) && other != id :: old(rows)[other].token != token
      ensures lastId == old(lastId)
      ensures rows == if result.Success? then old(rows)[id := Row(old(rows)[id].server.(updatedAt := now), token)]
                      else old(rows)
    {
      if fails {
        return Failure(Storage);
      }
      if id !in rows {
        return Failure(NotFound);
      }
      if exists other | other in rows :: rows[other].token == token && rows[id].token != token {
        return Failure(Storage);
      }
      RotateIsValid(Contents(), id, token, now, fails);
      rows := rows[id := Row(rows[id].server.(updatedAt := now), token)];
      return Success(rows[id].server);
    }

    method AuthenticateToken(token: string, fails: bool) returns (result: Result<Server, Error>)
      requires Contents().Valid()
      ensures result == if fails then Failure(Storage) else Authenticated(Contents(), token)
      ensures !fails ==>
        && (result == Failure(InvalidToken) <==> forall id | id in rows :: rows[id].token != token)
        && (result == Failure(Disabled)
            <==> exists id | id in rows :: rows[id].token == token && !rows[id].server.enabled)
        && (result.Success? <==> exists id | id in rows :: rows[id].token == token && rows[id].server.enabled)
      ensures result.Success? ==>
        result.value.id in rows && rows[result.value.id] == Row(result.value, token) && result.value.enabled
    {
      if fails {
        return Failure(Storage);
      }
      if !exists id | id in rows :: rows[id].token == token {
        return Failure(InvalidToken);
      }
      var id :| id in rows && rows[id].token == token;
      assert id == Holder(Contents(), token);
      if !rows[id].server.enabled {
        return Failure(Disabled);
      }
      return Success(rows[id].server);
    }

    method UpdateAgentVersion(id: int, version: string, m: Mutation) returns (result: Result<(), Error>)
      requires Contents().Valid()
      modifies this
      ensures Contents() == AfterVersion(old(Contents()), id, version, m) && Contents().Valid()
      ensures result.Success? <==> id in old(rows) && m == Done
      ensures lastId == old(lastId)
      ensures rows == if m == Refused || id !in old(rows) then old(rows)
                      else old(rows)[id := old(rows)[id].(server := old(rows)[id].server.(agentVersion := version))]
    {
      if m == Refused {
        return Failure(Storage);
      }
      if id !in rows {
        return Failure(NotFound);
      }
      WithServerIsValid(Contents(), id, rows[id].server.(agentVersion := version));
      rows := rows[id := rows[id].(server := rows[id].server.(agentVersion := version))];
      if m == DoneButFailed {
        return Failure(Storage);
      }
      return Success(());
    }
  }

  // Every operation keeps identifiers and tokens unique and the number of servers within the limit

  lemma Cardinality<K, V, W>(a: map<K, V>, b: map<K, W>)
    ensures a.Keys == b.Keys ==> |a| == |b|
    ensures forall k :: a.Keys == b.Keys + {k} && k !in b ==> |a| == |b| + 1
    ensures a.Keys <= b.Keys ==> |a| <= |b|
  {
    assert |a| == |a.Keys| && |b| == |b.Keys|;
    if a.Keys <= b.Keys {
      assert b.Keys == a.Keys + (b.Keys - a.Keys);
    }
  }

  lemma CreatedIsValid(l: Ledger, name: string, token: string, now: int)
    requires l.Valid() && |l.rows| < MAX_SERVERS && !IsTaken(l, token)
    ensures Created(l, name, token, now).Valid()
  {
    var next := Created(l, name, token, now);
    Cardinality(next.rows, l.rows);
    assert next.rows.Keys == l.rows.Keys + {l.lastId + 1};
    CreatedTokensDiffer(l, name, token, now);
  }

  lemma CreatedTokensDiffer(l: Ledger, name: string, token: string, now: int)
    requires l.TokensDiffer() && !IsTaken(l, token)
    ensures Created(l, name, token, now).TokensDiffer()
  {
  }

  lemma WithServerIsValid(l: Ledger, id: int, server: Server)
    requires l.Valid() && id in l.rows && server.id == id
    ensures WithServer(l, id, server).Valid()
  {
    Cardinality(WithServer(l, id, server).rows, l.rows);
  }

  lemma DeleteIsValid(l: Ledger, id: int)
    requires l.Valid()
    ensures l.(rows := l.rows - {id}).Valid()
  {
    Cardinality(l.rows - {id}, l.rows);
  }

  lemma RotateIsValid(l: Ledger, id: int, token: string, now: int, fails: bool)
    requires l.Valid()
    ensures AfterRotate(l, id, token, now, fails).Valid()
  {
    var next := AfterRotate(l, id, token, now, fails);
    Cardinality(next.rows, l.rows);
    forall i, j | i in next.rows && j in next.rows && next.rows[i].token == next.rows[j].token
      ensures i == j
    {
      assert i != id ==> next.rows[i] == l.rows[i];
      assert j != id ==> next.rows[j] == l.rows[j];
    }
  }

  lemma VersionIsValid(l: Ledger, id: int, version: string, m: Mutation)
    requires l.Valid()
    ensures AfterVersion(l, id, version, m).Valid()
  {
    if id in l.rows {
      WithServerIsValid(l, id, l.rows[id].server.(agentVersion := version));
    }
  }
}
