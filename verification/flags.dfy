/** The keyword crossing between the backend's flag bits and the store's. */
module Flags {
  import opened Common

  type Bits = bv8

  datatype Keyword = Seen | Flagged | Answered | Draft | Forwarded

  const ALL: seq<Keyword> := [Seen, Flagged, Answered, Draft, Forwarded]

  /** The backend's bit for a keyword. */
  function BackendBit(k: Keyword): Bits {
    match k case Seen => 1 case Flagged => 2 case Answered => 4 case Draft => 8 case Forwarded => 16
  }

  /** The store's bit for a keyword: its own numbering. */
  function StoreBit(k: Keyword): Bits {
    match k case Seen => 1 case Answered => 2 case Flagged => 4 case Draft => 8 case Forwarded => 16
  }

  predicate Has(bits: Bits, bit: Bits) { bits & bit != 0 }

  /** Setting one keyword's bit sets no other's. */
  lemma BitsAreSeparate(bits: Bits, k: Keyword, other: Keyword)
    ensures Has(bits | StoreBit(k), StoreBit(other)) <==> other == k || Has(bits, StoreBit(other))
  {
    match k {
      case Seen => match other { case Seen => case Answered => case Flagged => case Draft => case Forwarded => }
      case Answered => match other { case Seen => case Answered => case Flagged => case Draft => case Forwarded => }
      case Flagged => match other { case Seen => case Answered => case Flagged => case Draft => case Forwarded => }
      case Draft => match other { case Seen => case Answered => case Flagged => case Draft => case Forwarded => }
      case Forwarded => match other { case Seen => case Answered => case Flagged => case Draft => case Forwarded => }
    }
  }

  lemma NothingSet(k: Keyword)
    ensures !Has(0, StoreBit(k))
  {
    match k case Seen => case Answered => case Flagged => case Draft => case Forwarded =>
  }

  /** The keyword as the wire and the store both spell it. */
  function Spelling(k: Keyword): string {
    match k
    case Seen => "$seen" case Flagged => "$flagged" case Answered => "$answered"
    case Draft => "$draft" case Forwarded => "$forwarded"
  }

  /** The named keyword a spelling is of. */
  function NamedFlag(keyword: string): (k: Option<Keyword>)
    ensures forall n :: k == Some(n) <==> Spelling(n) == keyword
  {
    if keyword == "$seen" then Some(Seen)
    else if keyword == "$flagged" then Some(Flagged)
    else if keyword == "$answered" then Some(Answered)
    else if keyword == "$draft" then Some(Draft)
    else if keyword == "$forwarded" then Some(Forwarded)
    else None
  }

  /** The bits name the keywords that have one, and the overflow is the others. */
  ghost predicate Splits(keywords: seq<string>, bits: Bits, overflow: seq<string>) {
    && (forall k :: Has(bits, StoreBit(k)) <==> Spelling(k) in keywords)
    && (forall w :: w in overflow <==> w in keywords && NamedFlag(w) == None)
  }

  /** EncodeFlags: a keyword with a bit sets it, and one without travels beside. */
  method EncodeFlags(keywords: seq<string>) returns (bits: Bits, overflow: seq<string>)
    ensures Splits(keywords, bits, overflow)
    ensures (bits & 1 != 0 <==> "$seen" in keywords) && (bits & 2 != 0 <==> "$answered" in keywords)
    ensures (bits & 4 != 0 <==> "$flagged" in keywords) && (bits & 8 != 0 <==> "$draft" in keywords)
    ensures bits & 16 != 0 <==> "$forwarded" in keywords
    ensures forall w :: w in overflow <==>
              w in keywords && w !in ["$seen", "$answered", "$flagged", "$draft", "$forwarded"]
  {
    bits, overflow := 0, [];
    forall k: Keyword ensures !Has(0, StoreBit(k)) { NothingSet(k); }
    for i := 0 to |keywords|
      invariant Splits(keywords[..i], bits, overflow)
    {
      assert keywords[..i + 1] == keywords[..i] + [keywords[i]];
      var named := NamedFlag(keywords[i]);
      match named {
        case Some(n) =>
          forall k: Keyword ensures Has(bits | StoreBit(n), StoreBit(k)) <==> k == n || Has(bits, StoreBit(k)) {
            BitsAreSeparate(bits, n, k);
          }
          forall k: Keyword ensures Spelling(k) == keywords[i] <==> k == n {}
          bits := bits | StoreBit(n);
        case None =>
          forall k: Keyword ensures Spelling(k) != keywords[i] {}
          overflow := overflow + [keywords[i]];
      }
    }
    assert keywords[..|keywords|] == keywords;
    SplitsPlainly(keywords, bits, overflow);
  }

  lemma SplitsPlainly(keywords: seq<string>, bits: Bits, overflow: seq<string>)
    requires Splits(keywords, bits, overflow)
    ensures (bits & 1 != 0 <==> "$seen" in keywords) && (bits & 2 != 0 <==> "$answered" in keywords)
    ensures (bits & 4 != 0 <==> "$flagged" in keywords) && (bits & 8 != 0 <==> "$draft" in keywords)
    ensures bits & 16 != 0 <==> "$forwarded" in keywords
    ensures forall w :: w in overflow <==>
              w in keywords && w !in ["$seen", "$answered", "$flagged", "$draft", "$forwarded"]
  {
    assert Has(bits, StoreBit(Seen)) <==> Spelling(Seen) in keywords;
    assert Has(bits, StoreBit(Answered)) <==> Spelling(Answered) in keywords;
    assert Has(bits, StoreBit(Flagged)) <==> Spelling(Flagged) in keywords;
    assert Has(bits, StoreBit(Draft)) <==> Spelling(Draft) in keywords;
    assert Has(bits, StoreBit(Forwarded)) <==> Spelling(Forwarded) in keywords;
  }

  /** w is a keyword of the overflow, or one whose bit is set. */
  predicate Unfolds(bits: Bits, overflow: seq<string>, w: string) {
    w in overflow || (NamedFlag(w).Some? && Has(bits, StoreBit(NamedFlag(w).value)))
  }

  /** DecodeFlags: the overflow, and the keyword of every bit that is set. */
  method DecodeFlags(bits: Bits, overflow: seq<string>) returns (keywords: seq<string>)
    ensures forall w :: w in keywords <==> Unfolds(bits, overflow, w)
  {
    keywords := overflow;
    for i := 0 to |ALL|
      invariant forall w: string :: w in keywords <==>
                  w in overflow || exists j | 0 <= j < i :: Spelling(ALL[j]) == w && Has(bits, StoreBit(ALL[j]))
    {
      if Has(bits, StoreBit(ALL[i])) { keywords := keywords + [Spelling(ALL[i])]; }
    }
    forall w: string ensures w in keywords <==> Unfolds(bits, overflow, w) {
      if NamedFlag(w).Some? {
        AllNamed(NamedFlag(w).value);
        var j :| 0 <= j < |ALL| && ALL[j] == NamedFlag(w).value;
      }
    }
  }

  /** Decoding gives back every keyword that was encoded and no other, with a bit or without. */
  lemma DecodeUndoesEncode(keywords: seq<string>, bits: Bits, overflow: seq<string>)
    requires Splits(keywords, bits, overflow)
    ensures forall w :: Unfolds(bits, overflow, w) <==> w in keywords
  {
    forall w: string ensures Unfolds(bits, overflow, w) <==> w in keywords {
      if NamedFlag(w).Some? { assert Spelling(NamedFlag(w).value) == w; }
    }
  }

  /** storeFlags: the keywords the backend's set names are those the store's bits name, although the
      two number their bits differently. */
  method StoreFlags(backend: Bits) returns (bits: Bits)
    ensures forall k :: Has(bits, StoreBit(k)) <==> Has(backend, BackendBit(k))
    ensures (bits & 1 != 0 <==> backend & 1 != 0) && (bits & 2 != 0 <==> backend & 4 != 0)
    ensures (bits & 4 != 0 <==> backend & 2 != 0) && (bits & 8 != 0 <==> backend & 8 != 0)
    ensures bits & 16 != 0 <==> backend & 16 != 0
  {
    var keywords: seq<string> := [];
    for i := 0 to |ALL|
      invariant forall k: Keyword :: Spelling(k) in keywords <==> k in ALL[..i] && Has(backend, BackendBit(k))
    {
      assert ALL[..i + 1] == ALL[..i] + [ALL[i]];
      forall k: Keyword ensures Spelling(k) == Spelling(ALL[i]) <==> k == ALL[i] {
        assert NamedFlag(Spelling(k)) == Some(k);
      }
      if Has(backend, BackendBit(ALL[i])) { keywords := keywords + [Spelling(ALL[i])]; }
    }
    assert ALL[..|ALL|] == ALL;
    forall k: Keyword ensures k in ALL { AllNamed(k); }
    var overflow;
    bits, overflow := EncodeFlags(keywords);
    assert Has(bits, StoreBit(Seen)) <==> Has(backend, BackendBit(Seen));
    assert Has(bits, StoreBit(Answered)) <==> Has(backend, BackendBit(Answered));
    assert Has(bits, StoreBit(Flagged)) <==> Has(backend, BackendBit(Flagged));
    assert Has(bits, StoreBit(Draft)) <==> Has(backend, BackendBit(Draft));
    assert Has(bits, StoreBit(Forwarded)) <==> Has(backend, BackendBit(Forwarded));
  }

  lemma AllNamed(k: Keyword)
    ensures k in ALL
  {
    match k
    case Seen => assert ALL[0] == k;
    case Flagged => assert ALL[1] == k;
    case Answered => assert ALL[2] == k;
    case Draft => assert ALL[3] == k;
    case Forwarded => assert ALL[4] == k;
  }
}
