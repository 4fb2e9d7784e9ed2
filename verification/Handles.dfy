/** The 64-bit region handle: 15 bits of run offset on top, then 15 bits of page count, the
    used bit, the subpage bit, and 32 bits of bitmap index. */
module Handles {
  import opened Powers
  import opened Runs

  datatype Handle = Handle(runOffset: nat, pages: nat, used: bool, subpage: bool, bitmapIdx: nat) {
    /** Fits the bit fields with the sign bit clear. */
    predicate Fits() {
      runOffset < 0x4000 && pages < 0x8000 && bitmapIdx < 0x8000_0000
    }

    function ToRun(): Run {
      Run(runOffset, pages)
    }
  }

  const IS_SUBPAGE: nat := 0x1_0000_0000
  const IS_INUSED: nat := 0x2_0000_0000
  const SIZE: nat := 0x4_0000_0000
  const RUN_OFFSET: nat := 0x2_0000_0000_0000

  /** `toRunHandle` and `toHandle`. */
  function Encode(h: Handle): nat {
    h.runOffset * RUN_OFFSET + h.pages * SIZE
    + (if h.used then IS_INUSED else 0) + (if h.subpage then IS_SUBPAGE else 0) + h.bitmapIdx
  }

  function CalculateRunOffset(v: nat): nat { v / RUN_OFFSET }
  function CalculateRunPages(v: nat): nat { v / SIZE % 0x8000 }
  predicate IsUsed(v: nat) { v / IS_INUSED % 2 == 1 }
  predicate IsSubpage(v: nat) { v / IS_SUBPAGE % 2 == 1 }
  function CalculateBitmapIdx(v: nat): nat { v % IS_SUBPAGE }

  function Decode(v: nat): Handle {
    Handle(CalculateRunOffset(v), CalculateRunPages(v), IsUsed(v), IsSubpage(v), CalculateBitmapIdx(v))
  }

  /** A field above `low` and a modulus of `c`. */
  lemma Field(v: nat, q: nat, low: nat, c: nat)
    requires low < c && v == q * c + low
    ensures v / c == q && v % c == low
  {
    DivUnique(v, c, q);
    assert v == v / c * c + v % c;
  }

  /** Nothing is lost in the bits, and an encoded handle is a non-negative `long`, never -1. */
  lemma DecodeEncode(h: Handle)
    requires h.Fits()
    ensures Decode(Encode(h)) == h
    ensures Encode(h) < 0x8000_0000_0000_0000
  {
    hide CalculateRunOffset, CalculateRunPages, IsUsed, IsSubpage, CalculateBitmapIdx;
    var used, subpage := if h.used then 1 else 0, if h.subpage then 1 else 0;
    var element := subpage * IS_SUBPAGE + h.bitmapIdx;
    var flags := used * IS_INUSED + element;
    OffsetField(h, h.pages * SIZE + flags);
    PagesField(h, flags);
    UsedField(h, h.runOffset * 0x8000 + h.pages, used, element);
    ElementField(h, (h.runOffset * 0x8000 + h.pages) * 2 + used, subpage);
  }

  lemma OffsetField(h: Handle, low: nat)
    requires h.Fits() && low < RUN_OFFSET && Encode(h) == h.runOffset * RUN_OFFSET + low
    ensures CalculateRunOffset(Encode(h)) == h.runOffset && Encode(h) < 0x8000_0000_0000_0000
  {
    Field(Encode(h), h.runOffset, low, RUN_OFFSET);
  }

  lemma PagesField(h: Handle, flags: nat)
    requires h.Fits() && flags < SIZE && Encode(h) == (h.runOffset * 0x8000 + h.pages) * SIZE + flags
    ensures CalculateRunPages(Encode(h)) == h.pages
  {
    Field(Encode(h), h.runOffset * 0x8000 + h.pages, flags, SIZE);
    Field(h.runOffset * 0x8000 + h.pages, h.runOffset, h.pages, 0x8000);
  }

  lemma UsedField(h: Handle, upper: nat, used: nat, element: nat)
    requires used < 2 && element < IS_INUSED && Encode(h) == (upper * 2 + used) * IS_INUSED + element
    ensures IsUsed(Encode(h)) <==> used == 1
  {
    Field(Encode(h), upper * 2 + used, element, IS_INUSED);
    Field(upper * 2 + used, upper, used, 2);
  }

  lemma ElementField(h: Handle, upper: nat, subpage: nat)
    requires h.Fits() && subpage < 2 && Encode(h) == (upper * 2 + subpage) * IS_SUBPAGE + h.bitmapIdx
    ensures IsSubpage(Encode(h)) <==> subpage == 1
    ensures CalculateBitmapIdx(Encode(h)) == h.bitmapIdx
  {
    Field(Encode(h), upper * 2 + subpage, h.bitmapIdx, IS_SUBPAGE);
    Field(upper * 2 + subpage, upper, subpage, 2);
  }

  /** The queues compare raw handles; the offset decides. */
  lemma EncodeOrder(a: Handle, b: Handle)
    requires a.Fits() && b.Fits() && Encode(a) <= Encode(b)
    ensures a.runOffset <= b.runOffset
  {
    DecodeEncode(a);
    DecodeEncode(b);
  }

  /** `toRunHandle` of a run. */
  function RunHandle(r: Run, used: bool): Handle {
    Handle(r.offset, r.pages, used, false, 0)
  }
}
