/** The six usage bands of `PoolArena` and their thresholds: where a chunk goes on `add` and `move`. */
module ChunkLists {
  import opened Powers

  // bands in order of usage; qInit is its own predecessor, q00 has none
  const Q_INIT := 0
  const Q00 := 1
  const Q25 := 2
  const Q50 := 3
  const Q75 := 4
  const Q100 := 5
  const BANDS := 6

  /** floor(chunkSize * (100 - usage + 0.99999999) / 100), exactly. */
  function Threshold(chunkSize: nat, usage: nat): nat
    requires usage <= 100
  {
    chunkSize * (10099999999 - 100000000 * usage) / 10000000000
  }

  /** Upper usage bound of a band; that of q100 is INT_MAX. */
  function MaxUsage(band: nat): nat
    requires band < BANDS
  {
    if band == Q_INIT then 25 else if band == Q00 then 50 else if band == Q25 then 75
    else if band == Q100 then 0x7fff_ffff else 100
  }

  /** `m_minUsage` after `calculateMaxCapacity` has cut it off at zero. */
  function MinUsage(band: nat): nat
    requires band < BANDS
  {
    if band == Q_INIT then 0 else if band == Q00 then 1 else if band == Q25 then 25
    else if band == Q50 then 50 else if band == Q75 then 75 else 100
  }

  function FreeMin(chunkSize: nat, band: nat): int
    requires band < BANDS
  {
    if MaxUsage(band) == 100 then 0
    else if MaxUsage(band) > 100 then -1
    else Threshold(chunkSize, MaxUsage(band))
  }

  function FreeMax(chunkSize: nat, band: nat): int
    requires band < BANDS
  {
    if MinUsage(band) == 100 then 0 else Threshold(chunkSize, MinUsage(band))
  }

  function MaxCapacity(chunkSize: nat, band: nat): nat
    requires band < BANDS
  {
    if MinUsage(band) == 100 then 0 else chunkSize * (100 - MinUsage(band)) / 100
  }

  /** `PoolChunk::usage`. */
  function Usage(freeBytes: nat, chunkSize: nat): int
    requires 0 < chunkSize
  {
    if freeBytes == 0 then 100
    else
      var percentage := freeBytes * 100 / chunkSize;
      if percentage == 0 then 99 else 100 - percentage
  }

  /** The used share in percent, rounded up, but 100 only when full and 99 below. */
  lemma UsageIs(freeBytes: nat, chunkSize: nat)
    requires 0 < chunkSize && freeBytes <= chunkSize
    ensures var used, u := chunkSize - freeBytes, Usage(freeBytes, chunkSize);
      if freeBytes == 0 then u == 100
      else if 99 * chunkSize < 100 * used then u == 99
      else (u - 1) * chunkSize < 100 * used <= u * chunkSize
  {
    var p := freeBytes * 100 / chunkSize;
    assert p * chunkSize + freeBytes * 100 % chunkSize == freeBytes * 100;
    assert (p + 1) * chunkSize == p * chunkSize + chunkSize;
    assert (100 - p) * chunkSize == 100 * chunkSize - p * chunkSize;
    assert (100 - p - 1) * chunkSize == 100 * chunkSize - (p + 1) * chunkSize;
    if p == 0 {
      assert 99 * chunkSize < 100 * (chunkSize - freeBytes);
    } else {
      ScaleOrder(1, p, chunkSize);
    }
  }

  ghost predicate InBand(chunkSize: nat, band: nat, freeBytes: int) {
    band < BANDS && FreeMin(chunkSize, band) < freeBytes <= FreeMax(chunkSize, band)
  }

  /** `add`: on to the next band until the chunk is free enough for one.  The -1 of q100 stops it. */
  function AddTo(chunkSize: nat, band: nat, freeBytes: nat): (r: nat)
    requires band < BANDS
    ensures band <= r < BANDS && FreeMin(chunkSize, r) < freeBytes
    ensures forall b | band <= b < r :: freeBytes <= FreeMin(chunkSize, b)
    decreases BANDS - band
  {
    if freeBytes <= FreeMin(chunkSize, band) then AddTo(chunkSize, band + 1, freeBytes) else band
  }

  datatype Home = Band(band: nat) | Destroyed

  function PrevBand(band: nat): nat
    requires band != Q00
  {
    if band == Q_INIT then Q_INIT else band - 1
  }

  /** `move0` and `move`: down the bands; from q00 there is nowhere to go. */
  function MoveFrom(chunkSize: nat, band: nat, freeBytes: nat): (r: Home)
    requires 1 <= band < BANDS
    ensures r.Band? ==> 1 <= r.band < band && freeBytes <= FreeMax(chunkSize, r.band)
    ensures forall b | (if r.Band? then r.band else 0) < b < band :: freeBytes > FreeMax(chunkSize, b)
    decreases band
  {
    if band == Q00 then Destroyed
    else if freeBytes > FreeMax(chunkSize, PrevBand(band)) then MoveFrom(chunkSize, PrevBand(band), freeBytes)
    else Band(PrevBand(band))
  }

  /** The assertions met on the way down: `usage() < m_maxUsage` in every `move`, `usage() == 0`
      where no previous list is left. */
  ghost predicate MoveAssertsHold(chunkSize: nat, band: nat, freeBytes: nat)
    requires 1 <= band < BANDS && 0 < chunkSize
    decreases band
  {
    if band == Q00 then Usage(freeBytes, chunkSize) == 0
    else
      && Usage(freeBytes, chunkSize) < MaxUsage(PrevBand(band))
      && (freeBytes > FreeMax(chunkSize, PrevBand(band)) ==> MoveAssertsHold(chunkSize, PrevBand(band), freeBytes))
  }

  // the chunk sizes `validateAndCalculateChunkSize` lets through
  ghost predicate ChunkSizeOk(chunkSize: nat) {
    0x1000 <= chunkSize <= 0x4000_0000
  }

  /** Neighbouring bands overlap, q00 keeps every chunk with a byte in use, and qInit keeps all. */
  lemma BandsOverlap(chunkSize: nat)
    requires ChunkSizeOk(chunkSize)
    ensures forall b | 0 <= b < Q100 :: FreeMin(chunkSize, b) <= FreeMax(chunkSize, b + 1)
    ensures FreeMax(chunkSize, Q00) == chunkSize - 1
    ensures chunkSize <= FreeMax(chunkSize, Q_INIT) && FreeMin(chunkSize, Q_INIT) < chunkSize
  {
  }

  /** In whole pages the 0.99999999 of the threshold counts as one percent. */
  lemma ThresholdIs(chunkSize: nat, usage: nat, freeBytes: nat)
    requires ChunkSizeOk(chunkSize) && chunkSize % 0x1000 == 0 && freeBytes % 0x1000 == 0 && usage <= 100
    ensures freeBytes <= Threshold(chunkSize, usage) <==> 100 * freeBytes < (101 - usage) * chunkSize
  {
    var c, f, u := chunkSize / 0x1000, freeBytes / 0x1000, 101 - usage;
    var share := u * c;
    PagesTimes(u, chunkSize, c);
    assert chunkSize * (10099999999 - 100000000 * usage) == 100000000 * (u * chunkSize) - chunkSize by {
      assert 10099999999 - 100000000 * usage == 100000000 * u - 1;
      Spread(chunkSize, u);
    }
    assert freeBytes == 0x1000 * f;
    QuotientAbove(100000000 * (u * chunkSize) - chunkSize, freeBytes);
    if 100 * f < share {
      assert 100 * f + 1 <= share;
    }
  }

  lemma PagesTimes(u: nat, a: nat, c: nat)
    requires a == 0x1000 * c
    ensures u * a == 0x1000 * (u * c)
  {
  }

  lemma Spread(a: nat, u: nat)
    ensures a * (100000000 * u - 1) == 100000000 * (u * a) - a
  {
  }

  lemma QuotientAbove(a: int, b: nat)
    ensures b <= a / 10000000000 <==> 10000000000 * b <= a
  {
  }

  /** The bands by the share of the chunk in use, for free bytes in whole pages: up to 24%, anything up
      to 49%, 24 to 74%, from 49% on, from 74% on with a page to spare, and full. */
  lemma BandIs(chunkSize: nat, band: nat, freeBytes: nat)
    requires ChunkSizeOk(chunkSize) && chunkSize % 0x1000 == 0 && freeBytes % 0x1000 == 0
    requires freeBytes <= chunkSize && band < BANDS
    ensures var used := chunkSize - freeBytes;
      InBand(chunkSize, band, freeBytes) <==>
        if band == Q_INIT then 100 * used <= 24 * chunkSize
        else if band == Q00 then 0 < used && 100 * used <= 49 * chunkSize
        else if band == Q25 then 24 * chunkSize < 100 * used <= 74 * chunkSize
        else if band == Q50 then 49 * chunkSize < 100 * used && used < chunkSize
        else if band == Q75 then 74 * chunkSize < 100 * used && used < chunkSize
        else used == chunkSize
  {
    hide Threshold;
    ThresholdIs(chunkSize, 0, freeBytes);
    ThresholdIs(chunkSize, 1, freeBytes);
    ThresholdIs(chunkSize, 25, freeBytes);
    ThresholdIs(chunkSize, 50, freeBytes);
    ThresholdIs(chunkSize, 75, freeBytes);
  }

  /** What a list takes: requests up to the share that its least usage of 0, 1, 25, 50 or 75% leaves. */
  lemma CapacityIs(chunkSize: nat, band: nat, size: nat)
    requires band < BANDS
    ensures size <= MaxCapacity(chunkSize, band) <==>
      100 * size <= (if band == Q_INIT then 100 else if band == Q00 then 99 else if band == Q25 then 75
                     else if band == Q50 then 50 else if band == Q75 then 25 else 0) * chunkSize
  {
  }

  /** A chunk too full for its band finds one that suits it. */
  lemma {:induction false} AddFindsBand(chunkSize: nat, band: nat, freeBytes: nat)
    requires ChunkSizeOk(chunkSize) && band < BANDS && freeBytes <= FreeMax(chunkSize, band)
    ensures InBand(chunkSize, AddTo(chunkSize, band, freeBytes), freeBytes)
    decreases BANDS - band
  {
    if freeBytes <= FreeMin(chunkSize, band) {
      BandsOverlap(chunkSize);
      AddFindsBand(chunkSize, band + 1, freeBytes);
    }
  }

  /** A chunk too empty for its band finds one further down, or is wholly free and destroyed. */
  lemma {:induction false} MoveFindsBand(chunkSize: nat, band: nat, freeBytes: nat)
    requires ChunkSizeOk(chunkSize) && 1 <= band < BANDS && FreeMax(chunkSize, band) < freeBytes <= chunkSize
    ensures var home := MoveFrom(chunkSize, band, freeBytes);
      && (home.Band? ==> InBand(chunkSize, home.band, freeBytes))
      && (home == Destroyed <==> freeBytes == chunkSize)
    decreases band
  {
    BandsOverlap(chunkSize);
    if band != Q00 {
      if freeBytes > FreeMax(chunkSize, PrevBand(band)) {
        MoveFindsBand(chunkSize, PrevBand(band), freeBytes);
      } else {
        DownFits(chunkSize, band, freeBytes);
      }
    }
  }

  lemma DownFits(chunkSize: nat, band: nat, freeBytes: nat)
    requires ChunkSizeOk(chunkSize) && 2 <= band < BANDS
    requires FreeMax(chunkSize, band) < freeBytes <= FreeMax(chunkSize, band - 1)
    ensures FreeMin(chunkSize, band - 1) < freeBytes < chunkSize
  {
  }

  /** The usage assertions of `move` and `move0` cannot fail. */
  lemma {:induction false} MoveAssertions(chunkSize: nat, band: nat, freeBytes: nat)
    requires ChunkSizeOk(chunkSize) && 1 <= band < BANDS && FreeMax(chunkSize, band) < freeBytes <= chunkSize
    ensures MoveAssertsHold(chunkSize, band, freeBytes)
    decreases band
  {
    hide Usage;
    if band != Q00 {
      UsageBelow(chunkSize, band, freeBytes);
      if freeBytes > FreeMax(chunkSize, PrevBand(band)) {
        MoveAssertions(chunkSize, PrevBand(band), freeBytes);
      }
    } else {
      BandsOverlap(chunkSize);
      UsageAtMost(freeBytes, chunkSize, 100);
    }
  }

  lemma UsageAtMost(freeBytes: nat, chunkSize: nat, least: nat)
    requires 0 < freeBytes <= chunkSize && least * chunkSize <= freeBytes * 100
    ensures 0 <= Usage(freeBytes, chunkSize) < 100
    ensures 0 < least ==> Usage(freeBytes, chunkSize) <= 100 - least
  {
    Quotient(freeBytes * 100, chunkSize, least, 101);
  }

  lemma UsageBelow(chunkSize: nat, band: nat, freeBytes: nat)
    requires ChunkSizeOk(chunkSize) && 2 <= band < BANDS && FreeMax(chunkSize, band) < freeBytes <= chunkSize
    ensures Usage(freeBytes, chunkSize) < MaxUsage(PrevBand(band))
  {
    hide Usage;
    var least := if band == Q25 then 75 else if band == Q50 then 50 else if band == Q75 then 25 else 0;
    assert least * chunkSize <= freeBytes * 100;
    UsageAtMost(freeBytes, chunkSize, least);
  }
}
