/** The volume checks in 32-bit arithmetic: when their running sum overflows, and that nothing else differs. */
module BoundedScan {
  import opened Types
  import opened Sums
  import opened BookSpec
  import opened Matching
  import opened MatchingFacts

  const MAX_VOLUME := 0xFFFF_FFFF

  /** The loop of a volume check over the scanned orders: None when the 32-bit sum overflows. */
  function Scan(entries: seq<Offer>, volume: Volume, sum: Volume): Option<bool> {
    if entries == [] then Some(false)
    else if sum + entries[0].entry.volume > MAX_VOLUME then None
    else if sum + entries[0].entry.volume >= volume then Some(true)
    else Scan(entries[1..], volume, sum + entries[0].entry.volume)
  }

  /** The scanned orders, in the order the loop sees them: lowest price first on both sides. */
  function ScannedEntries(levels: seq<Level>, o: OrderInsertion): seq<Offer> {
    Offers(Ask, Scanned(levels, o))
  }

  lemma AheadNext(entries: seq<Offer>, i: nat)
    requires i < |entries|
    ensures Ahead(entries, i + 1) == Ahead(entries, i) + entries[i].entry.volume
  {
    assert entries[..i + 1] == entries[..i] + [entries[i]];
    SumByAppend(entries[..i], entries[i], OpenVolume());
  }

  lemma {:induction false} AheadGrows(entries: seq<Offer>, i: nat, j: nat)
    requires i <= j <= |entries|
    ensures 0 <= Ahead(entries, i) <= Ahead(entries, j)
    decreases j
  {
    if i < j {
      AheadNext(entries, j - 1);
      AheadGrows(entries, i, j - 1);
    } else {
      AheadNonNegative(entries, i);
    }
  }

  /** Order `k` is reached with less than the wanted volume, and takes the sum past 32 bits. */
  predicate OverflowsAt(entries: seq<Offer>, volume: Volume, k: nat) {
    k < |entries| && Ahead(entries, k) < volume && Ahead(entries, k + 1) > MAX_VOLUME
  }

  lemma {:induction false} ScanFrom(entries: seq<Offer>, volume: Volume, i: nat)
    requires i <= |entries| && Ahead(entries, i) <= MAX_VOLUME && (i == 0 || Ahead(entries, i) < volume)
    ensures 0 <= Ahead(entries, i)
    ensures var r := Scan(entries[i..], volume, Ahead(entries, i));
            && (r.None? <==> exists k :: i <= k && OverflowsAt(entries, volume, k))
            && (r.Some? ==> r.value == (i < |entries| && Ahead(entries, |entries|) >= volume))
    decreases |entries| - i
  {
    hide Ahead;
    AheadGrows(entries, 0, i);
    AheadGrows(entries, i, |entries|);
    if i < |entries| {
      AheadNext(entries, i);
      assert entries[i..][1..] == entries[i + 1..];
      var sum := Ahead(entries, i + 1);
      if sum > MAX_VOLUME {
        assert Ahead(entries, 0) == 0 by { NothingAhead(entries); }
        assert OverflowsAt(entries, volume, i);
      } else if sum >= volume {
        AheadGrows(entries, i + 1, |entries|);
        forall k | i <= k ensures !OverflowsAt(entries, volume, k) {
          if i < k < |entries| { AheadGrows(entries, i + 1, k); }
        }
      } else {
        ScanFrom(entries, volume, i + 1);
      }
    }
  }

  lemma NothingAhead(entries: seq<Offer>)
    ensures Ahead(entries, 0) == 0
  {}

  lemma EntriesIff(levels: seq<Level>)
    ensures Offers(Ask, levels) != [] <==> HasEntry(levels)
  {
    hide Offers;
    if Offers(Ask, levels) != [] {
      var i, j := OfferLevel(Ask, levels, 0);
    }
    if HasEntry(levels) {
      var i :| 0 <= i < |levels| && levels[i].orders != [];
      var k := LevelOffer(Ask, levels, i);
    }
  }

  /** A volume check in 32 bits overflows exactly when it reaches an order with less than the wanted volume
      seen so far that takes the sum past 2^32 - 1; otherwise it decides what the unbounded check does. */
  lemma ScanOverflowsIff(levels: seq<Level>, o: OrderInsertion)
    ensures var entries := ScannedEntries(levels, o); var r := Scan(entries, o.volume, 0);
            && (r.None? <==> exists k: nat :: OverflowsAt(entries, o.volume, k))
            && (r.Some? ==> r.value == EnoughVolume(levels, o))
  {
    hide Offers, Scan;
    var entries := ScannedEntries(levels, o);
    NothingAhead(entries);
    ScanFrom(entries, o.volume, 0);
    assert entries[0..] == entries && entries[..|entries|] == entries;
    OffersVolume(Ask, Scanned(levels, o));
    EntriesIff(Scanned(levels, o));
  }
}
