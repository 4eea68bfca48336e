/** The baseline pull's resume tokens, and its pages over a query that stands still. */
module BaselinePull {
  import opened Common

  const PREFIX: string := "baseline:"
  const DEFAULT_PAGE_SIZE: nat := 500

  // ---------------------------------------------------------------- decimal numbers

  function Digit(n: nat): char
    requires n < 10
  {
    ("0123456789")[n]
  }

  predicate IsDigit(c: char) { '0' <= c <= '9' }

  function Value(c: char): nat
    requires IsDigit(c)
  {
    (c as int) - ('0' as int)
  }

  /** strconv.FormatInt of a number that is not negative, in base ten. */
  function Format(n: nat): string {
    if n < 10 then [Digit(n)] else Format(n / 10) + [Digit(n % 10)]
  }

  /** strconv.ParseInt of digits; a sign or an empty string is no number here. */
  function Parse(s: string): Option<nat> {
    if s == "" || !(forall i | 0 <= i < |s| :: IsDigit(s[i])) then None else Some(Number(s))
  }

  function Number(s: string): nat
    requires forall i | 0 <= i < |s| :: IsDigit(s[i])
  {
    if s == "" then 0 else 10 * Number(s[..|s| - 1]) + Value(s[|s| - 1])
  }

  lemma DigitRoundTrip(n: nat)
    requires n < 10
    ensures IsDigit(Digit(n)) && Value(Digit(n)) == n
  {
  }

  lemma {:induction false} FormatRoundTrip(n: nat)
    ensures Parse(Format(n)) == Some(n) && Format(n) != "" && forall i | 0 <= i < |Format(n)| :: IsDigit(Format(n)[i])
  {
    DigitRoundTrip(n % 10);
    var s := Format(n);
    if n < 10 {
      assert n % 10 == n;
      assert s[..|s| - 1] == "" && s[|s| - 1] == Digit(n);
      assert Number(s[..|s| - 1]) == 0;
      assert Number(s) == Value(Digit(n));
    } else {
      FormatRoundTrip(n / 10);
      assert s[..|s| - 1] == Format(n / 10) && s[|s| - 1] == Digit(n % 10);
    }
  }

  // ---------------------------------------------------------------- tokens

  datatype Token = Token(position: nat, queryState: string)

  function Print(t: Token): string { PREFIX + Format(t.position) + ":" + t.queryState }

  /** strings.Cut at the first colon. */
  function Cut(s: string): (string, string) {
    if s == "" then ("", "")
    else if s[0] == ':' then ("", s[1..])
    else
      var (before, after) := Cut(s[1..]);
      ([s[0]] + before, after)
  }

  lemma {:induction false} CutAt(a: string, b: string)
    requires ':' !in a
    ensures Cut(a + ":" + b) == (a, b)
  {
    if a == "" {
      assert "" + ":" + b == ":" + b && (":" + b)[1..] == b;
    } else {
      var s := a + ":" + b;
      assert s[0] == a[0] && s[1..] == a[1..] + ":" + b;
      CutAt(a[1..], b);
      assert [a[0]] + a[1..] == a;
    }
  }

  /** parseBaselineToken: an empty token is the start of a fresh pull. */
  function ParseToken(token: string): Option<Token> {
    if token == "" then Some(Token(0, ""))
    else
      var rest := if PREFIX <= token then token[|PREFIX|..] else token;
      var (position, queryState) := Cut(rest);
      match Parse(position)
      case None => None
      case Some(n) => Some(Token(n, queryState))
  }

  /** A token parses back to what was printed, whatever its query state holds, colons included. */
  lemma TokenRoundTrip(t: Token)
    ensures ParseToken(Print(t)) == Some(t)
  {
    FormatRoundTrip(t.position);
    var rest := Format(t.position) + ":" + t.queryState;
    assert Print(t) == PREFIX + rest && (PREFIX + rest)[|PREFIX|..] == rest;
    assert ':' !in Format(t.position);
    CutAt(Format(t.position), t.queryState);
  }

  /** The first k characters of s are a number that ends s or that a colon follows. */
  predicate NumberUpTo(s: string, k: int) {
    0 < k <= |s| && (k < |s| ==> s[k] == ':') && forall i | 0 <= i < k :: IsDigit(s[i])
  }

  /** Where a string is cut: at its first colon, or at its end. */
  lemma {:induction false} CutSplits(s: string, k: nat)
    requires k <= |s| && (k < |s| ==> s[k] == ':') && forall i | 0 <= i < k :: s[i] != ':'
    ensures Cut(s) == (s[..k], if k < |s| then s[k + 1..] else "")
  {
    if k == 0 {
      assert s == "" || s[0] == ':';
    } else {
      CutSplits(s[1..], k - 1);
      assert [s[0]] + s[1..][..k - 1] == s[..k];
    }
  }

  lemma {:induction false} FirstColon(s: string) returns (k: nat)
    ensures k <= |s| && (k < |s| ==> s[k] == ':') && forall i | 0 <= i < k :: s[i] != ':'
  {
    if s == "" || s[0] == ':' { return 0; }
    k := FirstColon(s[1..]);
    k := k + 1;
  }

  /** Which tokens parse: those that are, after the prefix if they have it, a number, alone or before a colon.
      The number is the position, and all that follows the colon is the query state. */
  lemma ParsesIff(token: string)
    requires token != ""
    ensures var rest := if PREFIX <= token then token[|PREFIX|..] else token;
            && (ParseToken(token).Some? <==> exists k :: NumberUpTo(rest, k))
            && forall k | NumberUpTo(rest, k) ::
                 ParseToken(token) == Some(Token(Number(rest[..k]), if k < |rest| then rest[k + 1..] else ""))
  {
    var rest := if PREFIX <= token then token[|PREFIX|..] else token;
    var c := FirstColon(rest);
    CutSplits(rest, c);
    if ParseToken(token).Some? {
      assert forall i | 0 <= i < c :: rest[i] == rest[..c][i];
      assert NumberUpTo(rest, c);
    }
    forall k | NumberUpTo(rest, k)
      ensures ParseToken(token) == Some(Token(Number(rest[..k]), if k < |rest| then rest[k + 1..] else "")) {
      CutSplits(rest, k);
    }
  }

  // ---------------------------------------------------------------- a pull

  /** What the server answers a page's query and get with: the ids from the position on, the query's
      total and state, and the collection's state. */
  datatype Answer<Id> = Answer(ids: seq<Id>, total: nat, queryState: string, state: string)

  datatype ChangeSet<Id> = ChangeSet(created: seq<Id>, next: string, hasMore: bool)

  /** A server's answer about a query result that stands still: from the position on, at most `limit`
      ids and, while any are left, at least one. */
  predicate Honest<Id(==)>(a: Answer<Id>, query: seq<Id>, position: nat, limit: nat, queryState: string,
      state: string) {
    && a.total == |query| && a.queryState == queryState && a.state == state && |a.ids| <= limit
    && (if position < |query| then a.ids != [] && position + |a.ids| <= |query|
        && a.ids == query[position..position + |a.ids|]
        else a.ids == [])
  }

  /** One page at a position: the query result from there on, at most `limit` ids and, while any are left,
      at least one; there is more exactly when the page stops short of the end. */
  predicate PageOf<Id(==)>(query: seq<Id>, from: nat, limit: nat, ids: seq<Id>, hasMore: bool) {
    && |ids| <= limit && (hasMore <==> from + |ids| < |query|)
    && if from < |query| then ids != [] && from + |ids| <= |query| && ids == query[from..from + |ids|] else ids == []
  }

  /** A server over a query that does not move. */
  class Server<Id(==)> {
    const query: seq<Id>
    const queryState: string
    const state: string

    constructor (query: seq<Id>, queryState: string, state: string)
      ensures this.query == query && this.queryState == queryState && this.state == state
    {
      this.query, this.queryState, this.state := query, queryState, state;
    }

    /** How many ids the server chooses to answer with is its own affair. */
    method Query(position: nat, limit: nat) returns (a: Answer<Id>)
      requires limit >= 1
      ensures Honest(a, query, position, limit, queryState, state)
    {
      var wanted: int := *;
      var left := if position < |query| then |query| - position else 0;
      var most := if left < limit then left else limit;
      var n := if wanted < 1 then 1 else wanted;
      n := if n < most then n else most;
      var from := if position < |query| then position else |query|;
      assert from + left == |query| && 0 <= n <= left;
      a := Answer(query[from..from + n], |query|, queryState, state);
    }

    /** baselineMessages. A resumed token whose query state no longer matches starts over. */
    method BaselineMessages(token: string, limit: int) returns (r: Option<ChangeSet<Id>>)
      ensures match ParseToken(token)
              case None => r == None
              case Some(prev) =>
                var from := if prev.queryState != "" && prev.queryState != queryState then 0 else prev.position;
                r.Some? && Continues(query, queryState, state, from,
                    if limit <= 0 then DEFAULT_PAGE_SIZE else limit, r.value)
      decreases if ParseToken(token) == Some(Token(0, "")) then 0 else 1
    {
      var size: nat := if limit <= 0 then DEFAULT_PAGE_SIZE else limit;
      var prev := ParseToken(token);
      if prev.None? { return None; }
      var a := Query(prev.value.position, size);
      if prev.value.queryState != "" && a.queryState != prev.value.queryState {
        r := BaselineMessages("", limit);
        return;
      }
      var next := prev.value.position + |a.ids|;
      if |a.ids| == 0 || next >= a.total {
        return Some(ChangeSet(a.ids, a.state, false));
      }
      return Some(ChangeSet(a.ids, Print(Token(next, a.queryState)), true));
    }

    /** A pull from an empty token to its end, resuming each page from the token the last printed:
        the pages are the whole query result in order, without a gap or a repeat, and the token left
        at the end is the collection's state. */
    method PullAll(limit: int) returns (all: seq<Id>, token: string)
      ensures all == query && token == state
    {
      all, token := [], "";
      ghost var position := 0;
      var more := true;
      while more
        invariant position <= |query| && all == query[..position]
        invariant more ==> ParseToken(token).Some? && ParseToken(token).value.position == position
                           && (ParseToken(token).value.queryState == ""
                               || ParseToken(token).value.queryState == queryState)
        invariant !more ==> position == |query| && token == state
        decreases |query| - position, more
      {
        var r := BaselineMessages(token, limit);
        var cs := r.value;
        assert query[..position] + query[position..position + |cs.created|] == query[..position + |cs.created|];
        all := all + cs.created;
        position := position + |cs.created|;
        token, more := cs.next, cs.hasMore;
        if more { TokenRoundTrip(Token(position, queryState)); }
      }
      assert query[..|query|] == query;
    }
  }

  /** One page of a pull, and how the pull goes on: at the page's end under a token for it while the
      result has more, and at the collection's state otherwise. */
  predicate Continues<Id(==)>(query: seq<Id>, queryState: string, state: string, from: nat, limit: nat,
      cs: ChangeSet<Id>) {
    && PageOf(query, from, limit, cs.created, cs.hasMore)
    && cs.next == if cs.hasMore then Print(Token(from + |cs.created|, queryState)) else state
  }
}
