/** Which mailbox of an account holds each role. */
module Roles {

  /** How a mailbox is classified: by the role its backend declared, when it declared one, and by a
      heuristic over its name otherwise. "" is no role. */
  datatype Tables = Tables(declaredRole: string -> string, guessedRole: string -> string) {
    function Classify(declared: string, name: string): string {
      if declared != "" then declaredRole(declared) else guessedRole(name)
    }
  }

  /** One mailbox's role inputs. Its id is also its creation order. */
  datatype Candidate = Candidate(id: int, account: int, declared: string, name: string)

  /** a is before b: declared before guessed, then the lower id. */
  predicate Before(a: Candidate, b: Candidate) {
    if (a.declared != "") == (b.declared != "") then a.id <= b.id else a.declared != ""
  }

  predicate Contend(t: Tables, a: Candidate, b: Candidate) {
    a.account == b.account && t.Classify(a.declared, a.name) == t.Classify(b.declared, b.name)
  }

  /** c holds the role it classifies to: every contender for it comes after c. */
  predicate Wins(t: Tables, candidates: seq<Candidate>, c: Candidate) {
    t.Classify(c.declared, c.name) != "" && forall d | d in candidates && Contend(t, c, d) :: Before(c, d)
  }

  predicate DistinctIds(candidates: seq<Candidate>) {
    forall i, j | 0 <= i < j < |candidates| :: candidates[i].id != candidates[j].id
  }

  function Key(t: Tables, c: Candidate): (int, string) { (c.account, t.Classify(c.declared, c.name)) }

  /** The candidates among the first n that classify to key. */
  predicate Grouped(t: Tables, candidates: seq<Candidate>, n: int, groups: map<(int, string), seq<Candidate>>,
      key: (int, string), c: Candidate)
    requires 0 <= n <= |candidates|
  {
    key in groups && c in groups[key] <==> key.1 != "" && c in candidates[..n] && Key(t, c) == key
  }

  predicate NoEmptyGroup(groups: map<(int, string), seq<Candidate>>) { forall key | key in groups :: groups[key] != [] }

  method GroupByRole(t: Tables, candidates: seq<Candidate>) returns (groups: map<(int, string), seq<Candidate>>)
    ensures NoEmptyGroup(groups)
    ensures forall key, c :: Grouped(t, candidates, |candidates|, groups, key, c)
  {
    groups := map[];
    for n := 0 to |candidates|
      invariant NoEmptyGroup(groups)
      invariant forall key, c :: Grouped(t, candidates, n, groups, key, c)
    {
      var c := candidates[n];
      ghost var before := groups;
      if Key(t, c).1 != "" {
        groups := groups[Key(t, c) := (if Key(t, c) in groups then groups[Key(t, c)] else []) + [c]];
      }
      assert candidates[..n + 1] == candidates[..n] + [c];
      var next := n + 1;
      forall key: (int, string), d: Candidate ensures Grouped(t, candidates, next, groups, key, d) {
        assert Grouped(t, candidates, n, before, key, d);
      }
    }
  }

  /** slices.MinFunc over a contested role's claimants. */
  method First(group: seq<Candidate>) returns (winner: Candidate)
    requires group != []
    ensures winner in group && forall c | c in group :: Before(winner, c)
  {
    winner := group[0];
    for i := 1 to |group|
      invariant winner in group && forall j | 0 <= j < i :: Before(winner, group[j])
    {
      if !Before(winner, group[i]) { winner := group[i]; }
    }
  }

  lemma HasKey(s: set<(int, string)>)
    requires s != {}
    ensures exists k :: k in s
  {
    if forall k :: k !in s { assert false; }
  }

  /** What one candidate gets. */
  predicate Settled(t: Tables, candidates: seq<Candidate>, resolved: map<int, string>, c: Candidate) {
    && (c.id in resolved <==> Wins(t, candidates, c))
    && (c.id in resolved ==> resolved[c.id] == t.Classify(c.declared, c.name))
  }

  /** The winners of the roles settled so far: those whose key is no longer to do. */
  predicate SettledSoFar(t: Tables, candidates: seq<Candidate>, todo: set<(int, string)>, resolved: map<int, string>,
      c: Candidate) {
    && (c.id in resolved <==> Wins(t, candidates, c) && Key(t, c) !in todo)
    && (c.id in resolved ==> resolved[c.id] == t.Classify(c.declared, c.name))
  }

  /** c claims a role: the one its backend declared, or else the one its name suggests. */
  predicate Claims(t: Tables, c: Candidate, role: string) {
    role != "" && role == if c.declared != "" then t.declaredRole(c.declared) else t.guessedRole(c.name)
  }

  /** Each claimed role of an account goes to one of its claimants, and to no other: one whose backend
      declared it if there is any such, and of those, or of all when there is none, the oldest. */
  method ResolveMailboxRoles(t: Tables, candidates: seq<Candidate>) returns (resolved: map<int, string>)
    requires DistinctIds(candidates)
    ensures forall c | c in candidates :: Settled(t, candidates, resolved, c)
    ensures forall id | id in resolved :: exists c | c in candidates :: c.id == id
    ensures forall c | c in candidates && c.id in resolved :: Claims(t, c, resolved[c.id])
    ensures forall c, d | c in candidates && d in candidates && c.id in resolved && d.account == c.account
                          && Claims(t, d, resolved[c.id]) ::
              && (c.declared == "" ==> d.declared == "")
              && ((c.declared == "" <==> d.declared == "") ==> c.id <= d.id)
              && (d.id in resolved ==> d == c)
    ensures forall c, role | c in candidates && Claims(t, c, role) ::
              exists w | w in candidates :: w.account == c.account && w.id in resolved && resolved[w.id] == role
  {
    resolved := SettleRoles(t, candidates);
    forall c, d | c in candidates && d in candidates && c.id in resolved && d.account == c.account
                  && Claims(t, d, resolved[c.id])
      ensures c.declared == "" ==> d.declared == ""
      ensures (c.declared == "" <==> d.declared == "") ==> c.id <= d.id
      ensures d.id in resolved ==> d == c
    {
      assert Settled(t, candidates, resolved, c) && Settled(t, candidates, resolved, d);
      assert Contend(t, c, d);
      if d.id in resolved { OneWinner(t, candidates, c, d); }
    }
    forall c, role | c in candidates && Claims(t, c, role)
      ensures exists w | w in candidates :: w.account == c.account && w.id in resolved && resolved[w.id] == role {
      var w := EveryClaimedRoleIsHeld(t, candidates, c);
      assert Settled(t, candidates, resolved, w);
    }
  }

  /** The winners' roles, one contested role after another. */
  method SettleRoles(t: Tables, candidates: seq<Candidate>) returns (resolved: map<int, string>)
    requires DistinctIds(candidates)
    ensures forall c | c in candidates :: Settled(t, candidates, resolved, c)
    ensures forall id | id in resolved :: exists c | c in candidates :: c.id == id
  {
    var groups := GroupByRole(t, candidates);
    resolved := map[];
    var todo := groups.Keys;
    assert candidates[..|candidates|] == candidates;
    forall c | c in candidates ensures SettledSoFar(t, candidates, todo, resolved, c) {
      assert Grouped(t, candidates, |candidates|, groups, Key(t, c), c);
    }
    while todo != {}
      invariant todo <= groups.Keys
      invariant forall c | c in candidates :: SettledSoFar(t, candidates, todo, resolved, c)
      invariant forall id | id in resolved :: exists c | c in candidates :: c.id == id
      decreases |todo|
    {
      HasKey(todo);
      var key :| key in todo;
      assert key in groups;
      var winner := First(groups[key]);
      GroupWinner(t, candidates, groups, key, winner);
      ghost var before, left := resolved, todo;
      resolved := resolved[winner.id := key.1];
      todo := todo - {key};
      forall c | c in candidates ensures SettledSoFar(t, candidates, todo, resolved, c) {
        assert SettledSoFar(t, candidates, left, before, c);
        OneWinner(t, candidates, winner, c);
      }
    }
  }

  lemma GroupWinner(t: Tables, candidates: seq<Candidate>, groups: map<(int, string), seq<Candidate>>,
      key: (int, string), winner: Candidate)
    requires forall k, c :: Grouped(t, candidates, |candidates|, groups, k, c)
    requires key in groups && winner in groups[key] && forall c | c in groups[key] :: Before(winner, c)
    ensures winner in candidates && Key(t, winner) == key && Wins(t, candidates, winner)
  {
    assert candidates[..|candidates|] == candidates;
    assert Grouped(t, candidates, |candidates|, groups, key, winner);
    forall d | d in candidates && Contend(t, winner, d) ensures Before(winner, d) {
      assert Grouped(t, candidates, |candidates|, groups, key, d);
    }
  }

  /** A role has one winner: another of the same key has a different id and does not win. */
  lemma OneWinner(t: Tables, candidates: seq<Candidate>, winner: Candidate, c: Candidate)
    requires DistinctIds(candidates) && winner in candidates && c in candidates && Wins(t, candidates, winner)
    ensures c.id == winner.id ==> c == winner
    ensures Wins(t, candidates, c) && Contend(t, winner, c) ==> c == winner
  {
    var i :| 0 <= i < |candidates| && candidates[i] == winner;
    var j :| 0 <= j < |candidates| && candidates[j] == c;
    if Wins(t, candidates, c) && Contend(t, winner, c) { assert Before(winner, c) && Before(c, winner); }
  }

  /** The resolution of a set of mailboxes does not depend on the order they are listed in. */
  lemma OrderIsIrrelevant(t: Tables, a: seq<Candidate>, b: seq<Candidate>, ra: map<int, string>, rb: map<int, string>,
      c: Candidate)
    requires forall d :: d in a <==> d in b
    requires c in a && Settled(t, a, ra, c) && Settled(t, b, rb, c)
    ensures c.id in ra <==> c.id in rb
    ensures c.id in ra ==> ra[c.id] == rb[c.id]
  {
    assert Wins(t, a, c) <==> Wins(t, b, c);
  }

  /** Every claimed role is held: some claimant wins it. */
  lemma {:induction false} EveryClaimedRoleIsHeld(t: Tables, candidates: seq<Candidate>, c: Candidate)
    returns (w: Candidate)
    requires c in candidates && t.Classify(c.declared, c.name) != ""
    ensures w in candidates && Contend(t, c, w) && Wins(t, candidates, w)
  {
    w := c;
    for i := 0 to |candidates|
      invariant w in candidates && Contend(t, c, w)
      invariant forall j | 0 <= j < i && Contend(t, c, candidates[j]) :: Before(w, candidates[j])
    {
      if Contend(t, c, candidates[i]) && !Before(w, candidates[i]) { w := candidates[i]; }
    }
  }
}
