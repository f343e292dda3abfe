/** The refresh token table: `Save`, `Rotate` and `Revoke`, and the chains its rows form. */
module RefreshTokens {
  import opened Common

  /** A row; `replacedBy` is the hash of the token that took its place. */
  datatype Row = Row(user: string, expiresAt: int, revokedAt: Option<int>, replacedBy: Option<string>)

  /** The table by token hash, which is unique. */
  type Table = map<string, Row>

  /** A transaction is acknowledged, is rolled back with an error, or commits although the client sees an error. */
  datatype Outcome = Acked | RolledBack | Unacked

  datatype Reply = Ok(user: string) | NotFound | DbError

  datatype Op =
    | Save(user: string, hash: string, expiresAt: int, outcome: Outcome)
    | Rotate(oldHash: string, newHash: string, expiresAt: int, now: int, outcome: Outcome)
    | Revoke(hash: string, now: int, outcome: Outcome)

  predicate Unrevoked(t: Table, h: string) { h in t && t[h].revokedAt.None? }

  /** The row that `Rotate` may replace. */
  predicate Usable(t: Table, h: string, now: int) { Unrevoked(t, h) && t[h].expiresAt > now }

  /** The operation changes the table: the insert meets no equal hash, the update finds its row. */
  predicate Effective(t: Table, op: Op) {
    && !op.outcome.RolledBack?
    && match op
       case Save(_, hash, _, _) => hash !in t
       case Rotate(oldHash, newHash, _, now, _) => Usable(t, oldHash, now) && newHash !in t
       case Revoke(hash, _, _) => Unrevoked(t, hash)
  }

  function Apply(t: Table, op: Op): Table {
    if !Effective(t, op) then t
    else
      match op
      case Save(user, hash, expiresAt, _) => t[hash := Row(user, expiresAt, None, None)]
      case Rotate(oldHash, newHash, expiresAt, now, _) =>
        t[oldHash := t[oldHash].(revokedAt := Some(now), replacedBy := Some(newHash))]
         [newHash := Row(t[oldHash].user, expiresAt, None, None)]
      case Revoke(hash, now, _) => t[hash := t[hash].(revokedAt := Some(now))]
  }

  /** The table after any interleaving of logins, rotations and revocations. */
  function Replay(history: seq<Op>): Table {
    if history == [] then map[] else Apply(Replay(history[..|history| - 1]), history[|history| - 1])
  }

  class RefreshTokenRepository {
    var table: Table

    constructor ()
      ensures table == map[]
    {
      table := map[];
    }

    method SaveToken(user: string, hash: string, expiresAt: int, outcome: Outcome) returns (ok: bool)
      modifies this
      ensures table == Apply(old(table), Save(user, hash, expiresAt, outcome))
      ensures ok <==> hash !in old(table) && outcome == Acked
    {
      if hash in table || outcome == RolledBack {
        return false;
      }
      table := table[hash := Row(user, expiresAt, None, None)];
      return outcome == Acked;
    }

    /** One transaction: the update marks the old row, the insert adds its successor; an error in between
        rolls both back. */
    method RotateToken(oldHash: string, newHash: string, expiresAt: int, now: int, outcome: Outcome) returns (reply: Reply)
      modifies this
      ensures table == Apply(old(table), Rotate(oldHash, newHash, expiresAt, now, outcome))
      ensures reply.Ok? <==> outcome == Acked && Effective(old(table), Rotate(oldHash, newHash, expiresAt, now, outcome))
      ensures reply.Ok? ==> reply.user == old(table)[oldHash].user
      ensures reply.NotFound? <==> !Usable(old(table), oldHash, now) && outcome != RolledBack
    {
      var before := table;
      if !(oldHash in table && table[oldHash].revokedAt == None && table[oldHash].expiresAt > now) {
        return if outcome == RolledBack then DbError else NotFound;
      }
      var user := table[oldHash].user;
      table := table[oldHash := table[oldHash].(revokedAt := Some(now), replacedBy := Some(newHash))];
      if newHash in table {
        table := before;
        return DbError;
      }
      table := table[newHash := Row(user, expiresAt, None, None)];
      if outcome == RolledBack {
        table := before;
        return DbError;
      }
      return if outcome == Acked then Ok(user) else DbError;
    }

    method RevokeToken(hash: string, now: int, outcome: Outcome) returns (ok: bool)
      modifies this
      ensures table == Apply(old(table), Revoke(hash, now, outcome))
      ensures ok <==> outcome == Acked
    {
      if outcome != RolledBack && hash in table && table[hash].revokedAt == None {
        table := table[hash := table[hash].(revokedAt := Some(now))];
      }
      return outcome == Acked;
    }
  }

  // ------------------------------------------------------------ chains

  type Chains = seq<seq<string>>

  predicate At(chains: Chains, i: int, j: int, h: string) {
    0 <= i < |chains| && 0 <= j < |chains[i]| && chains[i][j] == h
  }

  /** The first chain that ends in `h`, or the number of chains. */
  function TailIndex(chains: Chains, h: string): (i: nat)
    ensures i <= |chains|
    ensures i < |chains| ==> chains[i] != [] && chains[i][|chains[i]| - 1] == h
    ensures i == |chains| ==> forall k | 0 <= k < |chains| && chains[k] != [] :: chains[k][|chains[k]| - 1] != h
  {
    if chains == [] then 0
    else if chains[0] != [] && chains[0][|chains[0]| - 1] == h then 0
    else TailIndex(chains[1..], h) + 1
  }

  /** An effective login starts a chain, an effective rotation extends the one that ends in the old token. */
  function Extend(t: Table, chains: Chains, op: Op): Chains {
    if !Effective(t, op) || op.Revoke? then chains
    else if op.Save? then chains + [[op.hash]]
    else
      var i := TailIndex(chains, op.oldHash);
      if i == |chains| then chains else chains[i := chains[i] + [op.newHash]]
  }

  function ChainsOf(history: seq<Op>): Chains {
    if history == [] then []
    else
      var front := history[..|history| - 1];
      Extend(Replay(front), ChainsOf(front), history[|history| - 1])
  }

  /** Token `j` of a chain is revoked and replaced by the next one; the last one is not replaced. */
  predicate LinkOk(t: Table, c: seq<string>, j: nat)
    requires j < |c|
  {
    && c[0] in t && c[j] in t && t[c[j]].user == t[c[0]].user
    && if j + 1 < |c| then t[c[j]].replacedBy == Some(c[j + 1]) && t[c[j]].revokedAt.Some?
       else t[c[j]].replacedBy == None
  }

  /** A chain follows `replacedBy`, belongs to one user, and only its last token can be unrevoked. */
  ghost predicate ChainOk(t: Table, c: seq<string>) {
    c != [] && forall j: nat | j < |c| :: LinkOk(t, c, j)
  }

  /** No hash has two positions. */
  ghost predicate Disjoint(chains: Chains) {
    forall i, j, i', j', h :: At(chains, i, j, h) && At(chains, i', j', h) ==> i == i' && j == j'
  }

  ghost predicate Covers(t: Table, chains: Chains) {
    forall h :: h in t <==> exists i, j :: At(chains, i, j, h)
  }

  /** The chains are disjoint, hold exactly the rows of the table, and are chains. */
  ghost predicate Linked(t: Table, chains: Chains) {
    && Disjoint(chains) && Covers(t, chains)
    && forall i | 0 <= i < |chains| :: ChainOk(t, chains[i])
  }

  /** The effective logins, in order. */
  function Logins(history: seq<Op>): seq<Op> {
    if history == [] then []
    else
      var front, last := history[..|history| - 1], history[|history| - 1];
      Logins(front) + (if last.Save? && Effective(Replay(front), last) then [last] else [])
  }

  lemma ChainUntouched(t: Table, t': Table, c: seq<string>)
    requires ChainOk(t, c) && forall j | 0 <= j < |c| :: c[j] in t' && (c[j] in t ==> t'[c[j]] == t[c[j]])
    ensures ChainOk(t', c)
  {
    forall j: nat | j < |c| ensures LinkOk(t', c, j) {
      assert LinkOk(t, c, j) && c[j] in t';
    }
  }

  lemma InTable(t: Table, chains: Chains, i: nat, j: nat)
    requires Covers(t, chains) && i < |chains| && j < |chains[i]|
    ensures chains[i][j] in t
  {
    assert At(chains, i, j, chains[i][j]);
  }

  lemma OtherPlace(chains: Chains, i: nat, j: nat, i': nat, j': nat)
    requires Disjoint(chains) && i < |chains| && j < |chains[i]| && i' < |chains| && j' < |chains[i']|
    requires i != i' || j != j'
    ensures chains[i][j] != chains[i'][j']
  {
    assert At(chains, i, j, chains[i][j]) && At(chains, i', j', chains[i'][j']);
  }

  /** Adding one new hash at one new position keeps the positions unique and complete. */
  lemma PlaceNew(t: Table, chains: Chains, t': Table, chains': Chains, k: nat, n: nat, h: string)
    requires Disjoint(chains) && Covers(t, chains) && h !in t
    requires forall x :: x in t' <==> x in t || x == h
    requires forall i, j, x :: At(chains', i, j, x) <==> At(chains, i, j, x) || (i == k && j == n && x == h)
    ensures Disjoint(chains') && Covers(t', chains')
  {
    assert At(chains', k, n, h);
    forall x ensures x in t' <==> exists i, j :: At(chains', i, j, x) {
      if x in t {
        var i, j :| At(chains, i, j, x);
        assert At(chains', i, j, x);
      }
    }
  }

  lemma SaveKeepsLinked(t: Table, chains: Chains, op: Op)
    requires Linked(t, chains) && op.Save? && Effective(t, op)
    ensures Linked(Apply(t, op), chains + [[op.hash]])
  {
    hide Disjoint, Covers, ChainOk;
    var t', chains' := Apply(t, op), chains + [[op.hash]];
    PlaceNew(t, chains, t', chains', |chains|, 0, op.hash);
    forall i | 0 <= i < |chains'| ensures ChainOk(t', chains'[i]) {
      if i < |chains| {
        forall j: nat | j < |chains[i]| ensures chains[i][j] in t {
          InTable(t, chains, i, j);
        }
        ChainUntouched(t, t', chains[i]);
      } else {
        SingletonIsChain(t', op.hash);
      }
    }
  }

  lemma SingletonIsChain(t: Table, h: string)
    requires h in t && t[h].replacedBy == None
    ensures ChainOk(t, [h])
  {
  }

  /** An unrevoked token is the last of its chain. */
  lemma UnrevokedIsTail(t: Table, chains: Chains, h: string)
    requires Linked(t, chains) && Unrevoked(t, h)
    ensures var i := TailIndex(chains, h); i < |chains| && At(chains, i, |chains[i]| - 1, h)
  {
    var i, j :| At(chains, i, j, h);
    assert ChainOk(t, chains[i]) && LinkOk(t, chains[i], j);
  }

  /** The rotated chain: its old tail is now revoked and replaced by the new token. */
  lemma LongerChain(t: Table, t': Table, c: seq<string>, h: string)
    requires ChainOk(t, c) && h !in c
    requires forall j: nat | j < |c| - 1 :: c[j] in t' && (c[j] in t ==> t'[c[j]] == t[c[j]])
    requires var tail := c[|c| - 1];
             && tail in t' && t'[tail].replacedBy == Some(h) && t'[tail].revokedAt.Some?
             && (tail in t ==> t'[tail].user == t[tail].user)
             && h in t' && t'[h].replacedBy == None && t'[h].user == t'[tail].user
    ensures ChainOk(t', c + [h])
  {
    var c' := c + [h];
    assert LinkOk(t, c, 0) && LinkOk(t, c, |c| - 1);
    forall j: nat | j < |c'| ensures LinkOk(t', c', j) {
      if j < |c| {
        assert LinkOk(t, c, j);
      }
    }
  }

  lemma RotateKeepsLinked(t: Table, chains: Chains, op: Op)
    requires Linked(t, chains) && op.Rotate? && Effective(t, op)
    ensures Linked(Apply(t, op), Extend(t, chains, op))
  {
    hide Disjoint, Covers, ChainOk, TailIndex;
    UnrevokedIsTail(t, chains, op.oldHash);
    var t', chains', k := Apply(t, op), Extend(t, chains, op), TailIndex(chains, op.oldHash);
    var c := chains[k];
    var n := |c|;
    PlaceNew(t, chains, t', chains', k, n, op.newHash);
    forall i | 0 <= i < |chains| ensures ChainOk(t', chains'[i]) {
      forall j: nat | j < |chains[i]| ensures chains[i][j] in t && (i != k || j != n - 1 ==> chains[i][j] != op.oldHash) {
        InTable(t, chains, i, j);
        if i != k || j != n - 1 {
          OtherPlace(chains, i, j, k, n - 1);
        }
      }
      if i != k {
        ChainUntouched(t, t', chains[i]);
      } else {
        LongerChain(t, t', c, op.newHash);
      }
    }
  }

  lemma RevokeKeepsLinked(t: Table, chains: Chains, op: Op)
    requires Linked(t, chains) && op.Revoke? && Effective(t, op)
    ensures Linked(Apply(t, op), chains)
  {
    hide Disjoint, Covers, TailIndex;
    var t' := Apply(t, op);
    SameKeysCovered(t, t', chains);
    forall i | 0 <= i < |chains| ensures ChainOk(t', chains[i]) {
      assert ChainOk(t, chains[i]);
      forall j: nat | j < |chains[i]| ensures LinkOk(t', chains[i], j) {
        assert LinkOk(t, chains[i], j);
      }
    }
  }

  lemma SameKeysCovered(t: Table, t': Table, chains: Chains)
    requires Covers(t, chains) && forall x :: x in t <==> x in t'
    ensures Covers(t', chains)
  {
  }

  /** After any interleaving the rows form disjoint chains, one per effective login and starting with its
      token, each of one user, in which only the last token can be unrevoked. */
  lemma {:induction false} RowsFormChains(history: seq<Op>)
    ensures Linked(Replay(history), ChainsOf(history))
    ensures |ChainsOf(history)| == |Logins(history)|
    ensures forall i | 0 <= i < |Logins(history)| ::
              ChainsOf(history)[i] != [] && Logins(history)[i].Save? && ChainsOf(history)[i][0] == Logins(history)[i].hash
  {
    hide Linked, Apply, Effective;
    if history == [] {
      EmptyIsLinked();
    } else {
      var front, last := history[..|history| - 1], history[|history| - 1];
      var t, chains := Replay(front), ChainsOf(front);
      RowsFormChains(front);
      StepKeepsLinked(t, chains, last);
    }
  }

  lemma EmptyIsLinked()
    ensures Linked(map[], [])
  {
  }

  lemma StepKeepsLinked(t: Table, chains: Chains, op: Op)
    requires Linked(t, chains)
    ensures Linked(Apply(t, op), Extend(t, chains, op))
  {
    hide Linked;
    if Effective(t, op) {
      match op
      case Save(_, _, _, _) => SaveKeepsLinked(t, chains, op);
      case Rotate(_, _, _, _, _) => RotateKeepsLinked(t, chains, op);
      case Revoke(_, _, _) => RevokeKeepsLinked(t, chains, op);
    }
  }

  // ------------------------------------------------------------ consequences

  /** The token reached from `h` by following `replacedBy` `k` times. */
  function Follow(t: Table, h: string, k: nat): Option<string>
    decreases k
  {
    if h !in t then None
    else if k == 0 then Some(h)
    else if t[h].replacedBy.None? then None
    else Follow(t, t[h].replacedBy.value, k - 1)
  }

  lemma {:induction false} FollowStaysInChain(t: Table, chains: Chains, i: nat, j: nat, k: nat)
    requires Linked(t, chains) && i < |chains| && j < |chains[i]|
    ensures Follow(t, chains[i][j], k) == if j + k < |chains[i]| then Some(chains[i][j + k]) else None
    decreases k
  {
    hide Disjoint, Covers;
    assert ChainOk(t, chains[i]) && LinkOk(t, chains[i], j);
    if k > 0 && j + 1 < |chains[i]| {
      FollowStaysInChain(t, chains, i, j + 1, k - 1);
    }
  }

  /** Following replacements never comes back, stays with one user, and only its end can be unrevoked. */
  lemma ReplacementsAreAcyclic(history: seq<Op>, h: string, k: nat)
    requires k > 0 && Follow(Replay(history), h, k).Some?
    ensures var t, next := Replay(history), Follow(Replay(history), h, k).value;
            && next != h && next in t && t[next].user == t[h].user && t[h].revokedAt.Some?
  {
    RowsFormChains(history);
    var t, chains := Replay(history), ChainsOf(history);
    var i, j :| At(chains, i, j, h);
    FollowStaysInChain(t, chains, i, j, k);
    assert ChainOk(t, chains[i]) && LinkOk(t, chains[i], j) && LinkOk(t, chains[i], j + k);
    assert At(chains, i, j + k, chains[i][j + k]);
  }

  /** Rows are never removed, their user never changes, and a revoked row never changes at all. */
  lemma {:induction false} RevokedStays(history: seq<Op>, more: seq<Op>, h: string)
    requires h in Replay(history)
    ensures h in Replay(history + more) && Replay(history + more)[h].user == Replay(history)[h].user
    ensures Replay(history)[h].revokedAt.Some? ==> Replay(history + more)[h] == Replay(history)[h]
  {
    if more == [] {
      assert history + more == history;
    } else {
      var front := more[..|more| - 1];
      RevokedStays(history, front, h);
      assert (history + more)[..|history + more| - 1] == history + front;
    }
  }

  /** In any interleaving a token is rotated effectively at most once. */
  lemma RotatesAtMostOnce(history: seq<Op>, i: nat, j: nat)
    requires i < j < |history| && history[i].Rotate? && history[j].Rotate?
    requires Effective(Replay(history[..i]), history[i]) && Effective(Replay(history[..j]), history[j])
    ensures history[i].oldHash != history[j].oldHash
  {
    var h := history[i].oldHash;
    assert history[..i + 1][..i] == history[..i];
    RevokedStays(history[..i + 1], history[i + 1..j], h);
    assert history[..i + 1] + history[i + 1..j] == history[..j];
  }

  function UnrevokedHashes(t: Table): set<string> { set h | h in t && t[h].revokedAt.None? }

  function EffectiveRevokes(history: seq<Op>): nat {
    if history == [] then 0
    else
      var front, last := history[..|history| - 1], history[|history| - 1];
      EffectiveRevokes(front) + (if last.Revoke? && Effective(Replay(front), last) then 1 else 0)
  }

  lemma UnrevokedAfterWrite(t: Table, h: string, row: Row)
    ensures UnrevokedHashes(t[h := row])
         == if row.revokedAt.None? then UnrevokedHashes(t) + {h} else UnrevokedHashes(t) - {h}
  {
  }

  lemma StepCountsUnrevoked(t: Table, op: Op)
    ensures |UnrevokedHashes(Apply(t, op))|
              == |UnrevokedHashes(t)| + (if !Effective(t, op) || op.Rotate? then 0 else if op.Save? then 1 else -1)
  {
    hide UnrevokedHashes;
    if Effective(t, op) {
      UnrevokedIff(t, op);
      match op
      case Save(user, hash, expiresAt, _) => UnrevokedAfterWrite(t, hash, Row(user, expiresAt, None, None));
      case Rotate(oldHash, newHash, expiresAt, now, _) =>
        var marked := t[oldHash].(revokedAt := Some(now), replacedBy := Some(newHash));
        UnrevokedAfterWrite(t, oldHash, marked);
        UnrevokedAfterWrite(t[oldHash := marked], newHash, Row(t[oldHash].user, expiresAt, None, None));
      case Revoke(hash, now, _) => UnrevokedAfterWrite(t, hash, t[hash].(revokedAt := Some(now)));
    }
  }

  lemma UnrevokedIff(t: Table, op: Op)
    ensures op.Save? ==> (op.hash in UnrevokedHashes(t) <==> Unrevoked(t, op.hash))
    ensures op.Revoke? ==> (op.hash in UnrevokedHashes(t) <==> Unrevoked(t, op.hash))
    ensures op.Rotate? ==> (op.oldHash in UnrevokedHashes(t) <==> Unrevoked(t, op.oldHash))
    ensures op.Rotate? ==> (op.newHash in UnrevokedHashes(t) <==> Unrevoked(t, op.newHash))
  {
  }

  /** The live sessions are the logins minus the effective revocations; rotations do not count. */
  lemma {:induction false} UnrevokedCount(history: seq<Op>)
    ensures |UnrevokedHashes(Replay(history))| == |Logins(history)| - EffectiveRevokes(history)
  {
    hide Effective, Apply, UnrevokedHashes;
    if history == [] {
      assert UnrevokedHashes(map[]) == {} by { NoneUnrevoked(); }
    } else {
      var front := history[..|history| - 1];
      UnrevokedCount(front);
      StepCountsUnrevoked(Replay(front), history[|history| - 1]);
    }
  }

  lemma NoneUnrevoked()
    ensures UnrevokedHashes(map[]) == {}
  {
  }

  function Tail(c: seq<string>): string requires c != [] { c[|c| - 1] }

  lemma ExtendChangesIff(t: Table, chains: Chains, op: Op, i: nat)
    requires Linked(t, chains) && i < |chains|
    ensures chains[i] != [] && Tail(chains[i]) in t && i < |Extend(t, chains, op)|
    ensures Extend(t, chains, op)[i]
              == if op.Rotate? && op.oldHash == Tail(chains[i]) && Effective(t,
                    op) then chains[i] + [op.newHash] else chains[i]
  {
    hide Effective, ChainOk, Covers, Disjoint, TailIndex;
    NonEmptyChain(t, chains, i);
    InTable(t, chains, i, |chains[i]| - 1);
    if op.Rotate? && Effective(t, op) {
      EffectiveRotate(t, op);
      UnrevokedIsTail(t, chains, op.oldHash);
      var k := TailIndex(chains, op.oldHash);
      if i != k {
        OtherPlace(chains, i, |chains[i]| - 1, k, |chains[k]| - 1);
      }
    }
  }

  /** One more operation changes a chain exactly when it effectively rotates the chain's last token, and
      then it appends the new one; a stale token cannot extend anything. */
  lemma {:induction false} SessionGrowsIff(history: seq<Op>, op: Op, i: nat)
    requires i < |ChainsOf(history)|
    ensures ChainsOf(history)[i] != [] && Tail(ChainsOf(history)[i]) in Replay(history)
    ensures i < |ChainsOf(history + [op])|
    ensures var c := ChainsOf(history)[i];
            ChainsOf(history + [op])[i]
              == if op.Rotate? && op.oldHash == Tail(c) && Effective(Replay(history), op) then c + [op.newHash] else c
  {
    hide Replay, Effective, Linked, Extend;
    RowsFormChains(history);
    ExtendChangesIff(Replay(history), ChainsOf(history), op, i);
    assert (history + [op])[..|history|] == history;
  }

  lemma EffectiveRotate(t: Table, op: Op)
    requires op.Rotate? && Effective(t, op)
    ensures Usable(t, op.oldHash, op.now)
  {
  }

  lemma NonEmptyChain(t: Table, chains: Chains, i: nat)
    requires Linked(t, chains) && i < |chains|
    ensures chains[i] != []
  {
    assert ChainOk(t, chains[i]);
  }

  /** A chain whose last token is revoked never grows again: a logout with it ends the session for good. */
  lemma {:induction false} EndedSessionStaysEnded(history: seq<Op>, more: seq<Op>, i: nat)
    requires i < |ChainsOf(history)| && ChainsOf(history)[i] != []
    requires Tail(ChainsOf(history)[i]) in Replay(history) && !Unrevoked(Replay(history), Tail(ChainsOf(history)[i]))
    ensures i < |ChainsOf(history + more)| && ChainsOf(history + more)[i] == ChainsOf(history)[i]
  {
    hide Apply, ChainsOf, Effective;
    if more == [] {
      assert history + more == history;
    } else {
      var front, op := more[..|more| - 1], more[|more| - 1];
      var c := ChainsOf(history)[i];
      assert history + more == history + front + [op];
      EndedSessionStaysEnded(history, front, i);
      SessionGrowsIff(history + front, op, i);
      RevokedStays(history, front, Tail(c));
      if op.Rotate? && Effective(Replay(history + front), op) {
        EffectiveRotate(Replay(history + front), op);
      }
    }
  }

  /** Logging out with a token that was already rotated changes nothing: the session goes on. */
  lemma StaleLogoutChangesNothing(history: seq<Op>, i: nat, j: nat, now: int, outcome: Outcome)
    requires i < |ChainsOf(history)| && j + 1 < |ChainsOf(history)[i]|
    ensures Replay(history + [Revoke(ChainsOf(history)[i][j], now, outcome)]) == Replay(history)
  {
    hide Covers, Disjoint;
    RowsFormChains(history);
    var op := Revoke(ChainsOf(history)[i][j], now, outcome);
    assert ChainOk(Replay(history), ChainsOf(history)[i]) && LinkOk(Replay(history), ChainsOf(history)[i], j);
    assert (history + [op])[..|history|] == history;
  }

  // ------------------------------------------------------------ how long a token can be used

  /** A token that was just saved is usable exactly until the expiry it was saved with, by its user. */
  lemma SavedTokenIsUsableUntil(t: Table, op: Op, at: int)
    requires op.Save? && Effective(t, op)
    ensures Usable(Apply(t, op), op.hash, at) <==> at < op.expiresAt
    ensures Apply(t, op)[op.hash].user == op.user
    ensures forall h | h in t :: h in Apply(t, op) && Apply(t, op)[h] == t[h]
  {
  }

  /** A token that just took another's place is usable exactly until the expiry it was given, by the same user;
      the old one is not usable at any time, and bears the time of the rotation. Nothing else changes. */
  lemma RotatedTokenIsUsableUntil(t: Table, op: Op, at: int)
    requires op.Rotate? && Effective(t, op)
    ensures var t' := Apply(t, op);
            && (Usable(t', op.newHash, at) <==> at < op.expiresAt) && !Usable(t', op.oldHash, at)
            && t'[op.newHash].user == t[op.oldHash].user
            && t'[op.oldHash] == t[op.oldHash].(revokedAt := Some(op.now), replacedBy := Some(op.newHash))
            && forall h | h in t && h != op.oldHash :: h in t' && t'[h] == t[h]
  {
  }

  /** A token can be rotated exactly while it is usable, to a hash that is free. */
  lemma RotatesIff(t: Table, op: Op)
    requires op.Rotate?
    ensures Effective(t, op)
       <==> && op.oldHash in t && t[op.oldHash].revokedAt == None && op.now < t[op.oldHash].expiresAt
            && op.newHash !in t && op.outcome != RolledBack
  {
  }

  /** A revocation that is not rolled back leaves no such token unrevoked, expired or not, and touches no other. */
  lemma RevocationIsComplete(t: Table, op: Op)
    requires op.Revoke? && op.outcome != RolledBack
    ensures var t' := Apply(t, op);
            && !Unrevoked(t', op.hash) && t'.Keys == t.Keys
            && (Unrevoked(t, op.hash) ==> t'[op.hash] == t[op.hash].(revokedAt := Some(op.now)))
            && forall h | h in t && (h != op.hash || !Unrevoked(t, h)) :: t'[h] == t[h]
  {
  }

  /** The operation takes the token out of use. */
  predicate Spends(t: Table, op: Op, h: string) {
    Effective(t, op) && ((op.Rotate? && op.oldHash == h) || (op.Revoke? && op.hash == h))
  }

  /** Only an operation that spends a token changes its row. */
  lemma RowChangesIffSpent(t: Table, op: Op, h: string)
    requires h in t
    ensures h in Apply(t, op) && (Apply(t, op)[h] == t[h] <==> !Spends(t, op, h))
  {
  }

  /** No operation after the first `n` of the history spends the token. */
  ghost predicate UnspentSince(history: seq<Op>, n: nat, h: string) {
    forall k | n <= k < |history| :: !Spends(Replay(history[..k]), history[k], h)
  }

  lemma {:induction false} UnspentRowStays(history: seq<Op>, n: nat, h: string)
    requires n <= |history| && h in Replay(history[..n]) && UnspentSince(history, n, h)
    ensures h in Replay(history) && Replay(history)[h] == Replay(history[..n])[h]
  {
    hide Apply, Spends;
    if n < |history| {
      var front := history[..|history| - 1];
      assert front[..n] == history[..n];
      forall k | n <= k < |front| ensures !Spends(Replay(front[..k]), front[k], h) { assert front[..k] == history[..k]; }
      UnspentRowStays(front, n, h);
      RowChangesIffSpent(Replay(front), history[|history| - 1], h);
    } else {
      assert history[..n] == history;
    }
  }

  /** A token saved, or rotated in, by operation `i` is usable in any later state exactly until its expiry, as
      long as no operation in between spends it. */
  lemma NewTokenIsUsableUntil(history: seq<Op>, i: nat, at: int)
    requires i < |history| && Effective(Replay(history[..i]), history[i]) && !history[i].Revoke?
    requires UnspentSince(history, i + 1, if history[i].Save? then history[i].hash else history[i].newHash)
    ensures Usable(Replay(history), if history[i].Save? then history[i].hash else history[i].newHash, at)
       <==> at < history[i].expiresAt
  {
    hide Apply, Effective, Spends;
    var op, t := history[i], Replay(history[..i]);
    assert history[..i + 1][..i] == history[..i];
    assert Replay(history[..i + 1]) == Apply(t, op);
    if op.Save? {
      SavedTokenIsUsableUntil(t, op, at);
      NewTokenIsThere(t, op);
      UnspentRowStays(history, i + 1, op.hash);
    } else {
      RotatedTokenIsUsableUntil(t, op, at);
      NewTokenIsThere(t, op);
      UnspentRowStays(history, i + 1, op.newHash);
    }
  }

  lemma NewTokenIsThere(t: Table, op: Op)
    requires Effective(t, op) && !op.Revoke?
    ensures (if op.Save? then op.hash else op.newHash) in Apply(t, op)
  {
  }

  /** Every token of a chain belongs to the user of the login that started the chain. */
  lemma {:induction false} ChainsBelongToLogins(history: seq<Op>, i: nat, j: nat)
    requires i < |ChainsOf(history)| && j < |ChainsOf(history)[i]|
    ensures i < |Logins(history)| && Logins(history)[i].Save?
    ensures ChainsOf(history)[i][j] in Replay(history)
    ensures Replay(history)[ChainsOf(history)[i][j]].user == Logins(history)[i].user
  {
    hide Covers, Disjoint, Apply, Effective, Extend;
    RowsFormChains(history);
    assert ChainOk(Replay(history), ChainsOf(history)[i]) && LinkOk(Replay(history), ChainsOf(history)[i], j);
    LoginKeepsUser(history, i);
  }

  lemma {:induction false} LoginKeepsUser(history: seq<Op>, i: nat)
    requires i < |Logins(history)|
    ensures Logins(history)[i].Save? && Logins(history)[i].hash in Replay(history)
    ensures Replay(history)[Logins(history)[i].hash].user == Logins(history)[i].user
  {
    hide Apply, Effective;
    var front, last := history[..|history| - 1], history[|history| - 1];
    if i < |Logins(front)| {
      LoginKeepsUser(front, i);
      RevokedStays(front, [last], Logins(front)[i].hash);
      assert front + [last] == history;
    } else {
      SavedTokenIsUsableUntil(Replay(front), last, 0);
      NewTokenIsThere(Replay(front), last);
    }
  }
}
