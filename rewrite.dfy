/**
 * The per-record breakpoint-rewrite decision of runAnnotate: the SV-type
 * filter, the eligibility test, the reference window, the refined REF/ALT
 * alleles and coordinates, and the symbolic fallback.
 */
module Rewrite {
  import opened Cpp
  import opened Records

  /** The type filter: a record passes unless it carries an SVTYPE other than the selected one. */
  predicate Selected(t: SvType, rec: Record) {
    rec.svType.None? || rec.svType.value == TypeId(t)
  }

  /** The declared span: END - POS, or 1 when the record has no END. */
  function Span(rec: Record): int {
    if rec.end.Some? then rec.end.value - rec.pos else 1
  }

  /** What happens to a record before any alignment is tried. */
  datatype Plan = Drop | Symbolic | Attempt

  function PlanFor(cfg: Config, rec: Record): Plan {
    if !Selected(cfg.svType, rec) then Drop
    else if Span(rec) <= cfg.maxLen && rec.precise then Attempt
    else Symbolic
  }

  /**
   * No alignment is tried for a record that is dropped or ineligible: what the
   * loop body does with it is the same whatever aligner, split finder and
   * entropy it runs with.
   */
  lemma IneligibleIgnoresEngine<A, B>(cfg: Config, e1: Engine<A>, e2: Engine<B>, chrom: string, rec: Record)
    requires RecordDefined(cfg, chrom, rec) && PlanFor(cfg, rec) != Attempt
    ensures Annotated(cfg, e1, chrom, rec) == Annotated(cfg, e2, chrom, rec)
  {
  }

  /** Start of the reference window: the position moved left by the consensus length, clamped at 0. */
  function RegStart(pos: int, consLen: nat): (r: int)
    ensures 0 <= r && pos - consLen <= r
    ensures r == 0 || r == pos - consLen
    ensures 0 <= pos ==> r <= pos
  {
    Max(pos - consLen, 0)
  }

  /**
   * End of the reference window: END moved right by the consensus length,
   * clamped at the contig length, computed in uint32_t and stored in int32_t.
   */
  function RegEnd(end: int, consLen: nat, chromLen: nat): (r: Int32)
    ensures r <= chromLen
    ensures chromLen < Int32Limit ==> 0 <= r
    ensures 0 <= end && end + consLen < UInt32Limit && chromLen < Int32Limit ==>
      r == Min(end + consLen, chromLen)
  {
    ToInt32(Min(ToUInt32(ToUInt32(end) + consLen), ToUInt32(chromLen)))
  }

  /** END and CONSENSUS are present and the window [RegStart, RegEnd) is a valid range. */
  predicate WindowDefined(rec: Record, chromLen: nat) {
    && rec.end.Some?
    && rec.consensus.Some?
    && |rec.consensus.value| < Int32Limit
    && RegStart(rec.pos, |rec.consensus.value|) <= RegEnd(rec.end.value, |rec.consensus.value|, chromLen)
  }

  /**
   * What the loop body needs of a record to have defined behaviour: a record
   * that passes the filter lies on the contig and its span fits int32_t, and
   * a record that is refined carries END and CONSENSUS and gives a valid window.
   */
  predicate RecordDefined(cfg: Config, chrom: string, rec: Record) {
    Selected(cfg.svType, rec) ==>
      && 0 <= rec.pos < |chrom|
      && (rec.end.Some? ==> IsInt32(rec.end.value - rec.pos))
      && (PlanFor(cfg, rec) == Attempt ==> WindowDefined(rec, |chrom|))
  }

  /** The upper-cased consensus. */
  function Consensus(rec: Record): string
    requires rec.consensus.Some?
  {
    Upper(rec.consensus.value)
  }

  /** The reference window: the upper-cased contig slice [RegStart, RegEnd). */
  function Window(chrom: string, rec: Record): string
    requires WindowDefined(rec, |chrom|)
  {
    var consLen := |rec.consensus.value|;
    Upper(chrom[RegStart(rec.pos, consLen)..RegEnd(rec.end.value, consLen, |chrom|)])
  }

  /**
   * The window starts at or left of the record's position and ends within the
   * contig; its content is the upper-cased contig between its bounds; and where
   * the uint32_t sum does not wrap it ends at min(END + consensus length, contig length).
   */
  lemma WindowBounds(chrom: string, rec: Record)
    requires WindowDefined(rec, |chrom|) && 0 <= rec.pos
    ensures var consLen := |rec.consensus.value|;
            var regStart := RegStart(rec.pos, consLen);
            var regEnd := RegEnd(rec.end.value, consLen, |chrom|);
            && 0 <= regStart <= rec.pos
            && regEnd <= |chrom|
            && |Window(chrom, rec)| == regEnd - regStart
            && (forall k :: 0 <= k < regEnd - regStart ==> Window(chrom, rec)[k] == UpperChar(chrom[regStart + k]))
            && (0 <= rec.end.value && rec.end.value + consLen < UInt32Limit && |chrom| < Int32Limit ==>
                  regEnd == Min(rec.end.value + consLen, |chrom|))
  {
  }

  /** The split lies inside the consensus and the window (the split finder's own invariant). */
  predicate SplitInWindow(sp: SplitPoint, consLen: nat, winLen: nat) {
    && 0 <= sp.cStart <= sp.cEnd <= consLen
    && 0 <= sp.rStart <= sp.rEnd <= winLen
  }

  /**
   * REF and ALT of a refined record: both start with the anchor base
   * win[rStart - 2]; REF goes on with the window from rStart - 1 when
   * rEnd > rStart + 1, ALT with the consensus from cStart - 1 when
   * cEnd > cStart + 1. None when one of the substr calls throws.
   */
  function RefinedAlleles(win: string, cons: string, sp: SplitPoint): (a: Option<(string, string)>)
    ensures a.Some? <==>
      && 0 <= sp.rStart - 2 <= |win|
      && (sp.rEnd > sp.rStart + 1 ==> sp.rStart - 1 <= |win|)
      && (sp.cEnd > sp.cStart + 1 ==> 0 <= sp.cStart - 1 <= |cons|)
  {
    var precChar := Substr(win, sp.rStart - 2, 1);
    var refTail := if sp.rEnd > sp.rStart + 1 then Substr(win, sp.rStart - 1, sp.rEnd - sp.rStart) else Some("");
    var altTail := if sp.cEnd > sp.cStart + 1 then Substr(cons, sp.cStart - 1, sp.cEnd - sp.cStart) else Some("");
    if precChar.None? || refTail.None? || altTail.None? then None
    else Some((precChar.value + refTail.value, precChar.value + altTail.value))
  }

  /** REF is the window slice that starts at the anchor, rStart - 2. */
  lemma RefIsWindowSlice(win: string, cons: string, sp: SplitPoint)
    requires RefinedAlleles(win, cons, sp).Some?
    ensures var ref := RefinedAlleles(win, cons, sp).value.0;
            && sp.rStart - 2 + |ref| <= |win|
            && ref == win[sp.rStart - 2..sp.rStart - 2 + |ref|]
  {
    var at := sp.rStart - 2;
    var ref := RefinedAlleles(win, cons, sp).value.0;
    if at == |win| {
      assert ref == [];
    } else if sp.rEnd > sp.rStart + 1 {
      var tail := Substr(win, at + 1, sp.rEnd - sp.rStart).value;
      assert ref == win[at..at + 1] + tail;
      assert ref == win[at..at + 1 + |tail|];
    }
  }

  /** Upper-casing commutes with taking a slice. */
  lemma UpperOfSlice(s: string, lo: nat, hi: nat, at: nat, n: nat)
    requires lo <= hi <= |s| && at + n <= hi - lo
    ensures Upper(s[lo..hi])[at..at + n] == Upper(s[lo + at..lo + at + n])
  {
    var u := Upper(s[lo..hi])[at..at + n];
    var v := Upper(s[lo + at..lo + at + n]);
    forall k | 0 <= k < n
      ensures u[k] == v[k]
    {
      assert s[lo..hi][at + k] == s[lo + at + k];
    }
    assert u == v;
  }

  /** REF and ALT share their first base, the window base at rStart - 2. */
  lemma AnchorShared(win: string, cons: string, sp: SplitPoint)
    requires RefinedAlleles(win, cons, sp).Some?
    requires sp.rStart - 2 < |win|
    ensures var a := RefinedAlleles(win, cons, sp).value;
            && |a.0| >= 1 && |a.1| >= 1
            && a.0[0] == win[sp.rStart - 2]
            && a.1[0] == win[sp.rStart - 2]
  {
  }

  /**
   * For a split inside the window whose substrings are in range (rStart >= 2,
   * and cStart >= 1 when there is an ALT tail), the alleles exist, REF is the
   * anchor plus rEnd - rStart window bases and ALT the anchor plus
   * cEnd - cStart consensus bases, or the anchor alone.
   */
  lemma AlleleLengths(win: string, cons: string, sp: SplitPoint)
    requires SplitInWindow(sp, |cons|, |win|)
    requires 2 <= sp.rStart
    requires sp.cEnd > sp.cStart + 1 ==> 1 <= sp.cStart
    ensures RefinedAlleles(win, cons, sp).Some?
    ensures var a := RefinedAlleles(win, cons, sp).value;
            && |a.0| == (if sp.rEnd > sp.rStart + 1 then 1 + (sp.rEnd - sp.rStart) else 1)
            && |a.1| == (if sp.cEnd > sp.cStart + 1 then 1 + (sp.cEnd - sp.cStart) else 1)
            && (sp.rEnd > sp.rStart + 1 ==> a.0[1..] == win[sp.rStart - 1..sp.rEnd - 1])
            && (sp.cEnd > sp.cStart + 1 ==> a.1[1..] == cons[sp.cStart - 1..sp.cEnd - 1])
  {
  }

  /** The symbolic allele pair: the upper-cased base at pos and the type tag in angle brackets. */
  function SymbolicAlleles(t: SvType, chrom: string, pos: int): seq<string>
    requires 0 <= pos < |chrom|
  {
    [Upper(chrom[pos..pos + 1]), "<" + TypeId(t) + ">"]
  }

  /** The record after a successful refinement. */
  function Refined(rec: Record, regStart: int, sp: SplitPoint, alleles: (string, string), entropy: real): Record {
    rec.(pos := NarrowToInt32(regStart + sp.rStart - 2),
         alleles := [alleles.0, alleles.1],
         end := Some(NarrowToInt32(regStart + sp.rEnd)),
         insLen := Some(NarrowToInt32(sp.cEnd - sp.cStart - 1)),
         srq := Some(sp.quality),
         ce := Some(entropy))
  }

  /** The breakpoint the aligner and the split finder report, None when either fails. */
  function Breakpoint<A>(cfg: Config, eng: Engine<A>, chrom: string, rec: Record): Option<SplitPoint>
    requires RecordDefined(cfg, chrom, rec) && PlanFor(cfg, rec) == Attempt
  {
    match eng.align(Consensus(rec), Window(chrom, rec), cfg.svType)
    case None => None
    case Some(aln) => eng.findSplit(aln, cfg.svType)
  }

  /** What the loop body does with one record: skip it, write it, or throw. */
  datatype Step = Skip | Write(rec: Record) | Abort

  /** The loop body of runAnnotate on one record (specification of Annotate.AnnotateRecord). */
  function Annotated<A>(cfg: Config, eng: Engine<A>, chrom: string, rec: Record): (s: Step)
    requires RecordDefined(cfg, chrom, rec)
    ensures s.Skip? <==> !Selected(cfg.svType, rec)
    ensures s.Abort? ==> PlanFor(cfg, rec) == Attempt && Breakpoint(cfg, eng, chrom, rec).Some?
  {
    match PlanFor(cfg, rec)
    case Drop => Skip
    case Symbolic => Write(rec.(alleles := SymbolicAlleles(cfg.svType, chrom, rec.pos)))
    case Attempt =>
      match Breakpoint(cfg, eng, chrom, rec)
      case None => Write(rec.(alleles := SymbolicAlleles(cfg.svType, chrom, rec.pos)))
      case Some(sp) =>
        match RefinedAlleles(Window(chrom, rec), Consensus(rec), sp)
        case None => Abort
        case Some(alleles) =>
          Write(Refined(rec, RegStart(rec.pos, |rec.consensus.value|), sp, alleles, eng.entropy(Consensus(rec))))
  }

  /**
   * An ineligible record, or one whose alignment or split fails, gets exactly
   * the symbolic alleles and nothing else about it changes; the engine is not
   * consulted for an ineligible one.
   */
  lemma FallbackIsSymbolic<A>(cfg: Config, eng: Engine<A>, chrom: string, rec: Record)
    requires RecordDefined(cfg, chrom, rec) && Selected(cfg.svType, rec)
    requires PlanFor(cfg, rec) == Symbolic ||
             (PlanFor(cfg, rec) == Attempt && Breakpoint(cfg, eng, chrom, rec).None?)
    ensures Annotated(cfg, eng, chrom, rec) ==
      Write(rec.(alleles := [[UpperChar(chrom[rec.pos])], "<" + TypeId(cfg.svType) + ">"]))
  {
    assert Upper(chrom[rec.pos..rec.pos + 1]) == [UpperChar(chrom[rec.pos])];
  }

  /** Annotating an ineligible record a second time changes nothing. */
  lemma FallbackIdempotent<A>(cfg: Config, eng: Engine<A>, chrom: string, rec: Record)
    requires RecordDefined(cfg, chrom, rec) && PlanFor(cfg, rec) == Symbolic
    ensures Annotated(cfg, eng, chrom, rec).Write?
    ensures var out := Annotated(cfg, eng, chrom, rec).rec;
            RecordDefined(cfg, chrom, out) && Annotated(cfg, eng, chrom, out) == Write(out)
  {
    var out := Annotated(cfg, eng, chrom, rec).rec;
    assert PlanFor(cfg, out) == Symbolic;
  }

  /**
   * Only POS, the alleles, END, INSLEN, SRQ and CE of a written record can
   * differ from the input; in particular MICROHOMLEN is never written.
   */
  lemma OnlyRewrittenFieldsChange<A>(cfg: Config, eng: Engine<A>, chrom: string, rec: Record)
    requires RecordDefined(cfg, chrom, rec) && Annotated(cfg, eng, chrom, rec).Write?
    ensures var out := Annotated(cfg, eng, chrom, rec).rec;
            && out.(pos := rec.pos, alleles := rec.alleles, end := rec.end, insLen := rec.insLen,
                    srq := rec.srq, ce := rec.ce) == rec
            && out.microHomLen == rec.microHomLen
  {
  }

  /**
   * Every written record's REF allele is the upper-cased reference at its
   * (possibly moved) position, for refined and symbolic records alike.
   */
  lemma WrittenRefIsReference<A>(cfg: Config, eng: Engine<A>, chrom: string, rec: Record)
    requires RecordDefined(cfg, chrom, rec) && Annotated(cfg, eng, chrom, rec).Write?
    ensures var out := Annotated(cfg, eng, chrom, rec).rec;
            && |out.alleles| == 2
            && 0 <= out.pos && out.pos + |out.alleles[0]| <= |chrom|
            && out.alleles[0] == Upper(chrom[out.pos..out.pos + |out.alleles[0]|])
  {
    if PlanFor(cfg, rec) == Attempt && Breakpoint(cfg, eng, chrom, rec).Some? {
      var sp := Breakpoint(cfg, eng, chrom, rec).value;
      var consLen := |rec.consensus.value|;
      var regStart := RegStart(rec.pos, consLen);
      var regEnd := RegEnd(rec.end.value, consLen, |chrom|);
      var alleles := RefinedAlleles(Window(chrom, rec), Consensus(rec), sp).value;
      assert Annotated(cfg, eng, chrom, rec).rec ==
        Refined(rec, regStart, sp, alleles, eng.entropy(Consensus(rec)));
      RefinedRefIsReference(chrom, regStart, regEnd, Consensus(rec), sp, rec, eng.entropy(Consensus(rec)));
    }
  }

  /** The refined REF is the upper-cased reference at the refined position. */
  lemma RefinedRefIsReference(chrom: string, regStart: int, regEnd: int, cons: string, sp: SplitPoint,
                              rec: Record, entropy: real)
    requires 0 <= regStart <= regEnd <= |chrom| && regEnd < Int32Limit
    requires RefinedAlleles(Upper(chrom[regStart..regEnd]), cons, sp).Some?
    ensures var out := Refined(rec, regStart, sp, RefinedAlleles(Upper(chrom[regStart..regEnd]), cons, sp).value, entropy);
            && out.pos == regStart + sp.rStart - 2
            && |out.alleles| == 2
            && 0 <= out.pos && out.pos + |out.alleles[0]| <= |chrom|
            && out.alleles[0] == Upper(chrom[out.pos..out.pos + |out.alleles[0]|])
  {
    var win := Upper(chrom[regStart..regEnd]);
    RefIsWindowSlice(win, cons, sp);
    var ref := RefinedAlleles(win, cons, sp).value.0;
    assert IsInt32(regStart + sp.rStart - 2);
    UpperOfSlice(chrom, regStart, regEnd, sp.rStart - 2, |ref|);
  }

  /**
   * A refined record whose split lies inside the window moves to
   * regStart + rStart - 2, ends at regStart + rEnd (so END - POS is
   * rEnd - rStart + 2 and END >= POS + 2), gets INSLEN cEnd - cStart - 1 and
   * the split's quality and the consensus entropy as SRQ and CE.
   */
  lemma RefinedCoordinates<A>(cfg: Config, eng: Engine<A>, chrom: string, rec: Record, sp: SplitPoint)
    requires RecordDefined(cfg, chrom, rec) && PlanFor(cfg, rec) == Attempt
    requires Breakpoint(cfg, eng, chrom, rec) == Some(sp)
    requires Annotated(cfg, eng, chrom, rec).Write?
    requires SplitInWindow(sp, |Consensus(rec)|, |Window(chrom, rec)|)
    ensures var out := Annotated(cfg, eng, chrom, rec).rec;
            var regStart := RegStart(rec.pos, |rec.consensus.value|);
            && out.pos == regStart + sp.rStart - 2
            && out.end == Some(regStart + sp.rEnd)
            && out.insLen == Some(sp.cEnd - sp.cStart - 1)
            && out.end.value - out.pos == sp.rEnd - sp.rStart + 2
            && out.end.value >= out.pos + 2
            && out.srq == Some(sp.quality)
            && out.ce == Some(eng.entropy(Consensus(rec)))
  {
    var consLen := |rec.consensus.value|;
    var regStart := RegStart(rec.pos, consLen);
    var regEnd := RegEnd(rec.end.value, consLen, |chrom|);
    assert |Window(chrom, rec)| == regEnd - regStart;
    assert IsInt32(regStart + sp.rEnd);
    assert IsInt32(regStart + sp.rStart - 2);
    assert IsInt32(sp.cEnd - sp.cStart - 1);
  }
}
