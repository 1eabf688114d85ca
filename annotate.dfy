/**
 * The record loop of runAnnotate. For each contig of the reference that the
 * BCF header knows, the records the index returns for the contig are
 * annotated one at a time and written in input order. Records of another SV
 * type are skipped. An exception thrown while building the alleles ends the
 * run.
 */
module Annotate {
  import opened Cpp
  import opened Records
  import opened Rewrite

  /** The records written so far, and whether the run ended with an exception. */
  datatype Outcome = Outcome(written: seq<Record>, aborted: bool)

  predicate AllDefined(cfg: Config, chrom: string, recs: seq<Record>) {
    forall i :: 0 <= i < |recs| ==> RecordDefined(cfg, chrom, recs[i])
  }

  /**
   * The loop body on one record. The record is updated field by field and the
   * flag useTags decides whether the symbolic alleles are put in at the end.
   */
  method AnnotateRecord<A>(cfg: Config, eng: Engine<A>, chrom: string, rec: Record) returns (step: Step)
    requires RecordDefined(cfg, chrom, rec)
    ensures step == Annotated(cfg, eng, chrom, rec)
  {
    if !Selected(cfg.svType, rec) {
      return Skip;
    }
    var r := rec;
    var useTags := true;
    if Span(rec) <= cfg.maxLen && rec.precise {
      useTags := false;
      var consensus := Upper(rec.consensus.value);
      var consLen := |consensus|;
      var regStart := RegStart(rec.pos, consLen);
      var regEnd := RegEnd(rec.end.value, consLen, |chrom|);
      var svRefStr := Upper(chrom[regStart..regEnd]);
      var alignFwd := eng.align(consensus, svRefStr, cfg.svType);
      if alignFwd.None? {
        useTags := true;
      } else {
        var split := eng.findSplit(alignFwd.value, cfg.svType);
        if split.None? {
          useTags := true;
        } else {
          var sp := split.value;
          assert Breakpoint(cfg, eng, chrom, rec) == Some(sp);
          var alleles := BuildAlleles(svRefStr, consensus, sp);
          if alleles.None? {
            return Abort;
          }
          var (refPart, altPart) := alleles.value;
          r := r.(pos := NarrowToInt32(regStart + sp.rStart - 2));
          r := r.(alleles := [refPart, altPart]);
          r := r.(end := Some(NarrowToInt32(regStart + sp.rEnd)));
          r := r.(insLen := Some(NarrowToInt32(sp.cEnd - sp.cStart - 1)));
          r := r.(srq := Some(sp.quality));
          r := r.(ce := Some(eng.entropy(consensus)));
        }
      }
    }
    if useTags {
      r := r.(alleles := SymbolicAlleles(cfg.svType, chrom, r.pos));
    }
    step := Write(r);
  }

  /**
   * The anchor base and the REF and ALT strings of a refined record, built by
   * substr and concatenation; None when a substr call throws.
   */
  method BuildAlleles(svRefStr: string, consensus: string, sp: SplitPoint) returns (alleles: Option<(string, string)>)
    ensures alleles == RefinedAlleles(svRefStr, consensus, sp)
  {
    var precChar := Substr(svRefStr, sp.rStart - 2, 1);
    if precChar.None? {
      return None;
    }
    var refPart := precChar.value;
    if sp.rEnd > sp.rStart + 1 {
      var tail := Substr(svRefStr, sp.rStart - 1, sp.rEnd - sp.rStart);
      if tail.None? {
        return None;
      }
      refPart := refPart + tail.value;
    } else {
      assert refPart == precChar.value + "";
    }
    var altPart := precChar.value;
    if sp.cEnd > sp.cStart + 1 {
      var tail := Substr(consensus, sp.cStart - 1, sp.cEnd - sp.cStart);
      if tail.None? {
        return None;
      }
      altPart := altPart + tail.value;
    } else {
      assert altPart == precChar.value + "";
    }
    alleles := Some((refPart, altPart));
  }

  /** The loop over the records of one contig (specification of AnnotateChromosome). */
  function Run<A>(cfg: Config, eng: Engine<A>, chrom: string, recs: seq<Record>): (o: Outcome)
    requires AllDefined(cfg, chrom, recs)
    ensures |o.written| <= |recs|
    decreases |recs|
  {
    if recs == [] then Outcome([], false)
    else
      var prev := Run(cfg, eng, chrom, recs[..|recs| - 1]);
      if prev.aborted then prev
      else
        match Annotated(cfg, eng, chrom, recs[|recs| - 1])
        case Skip => prev
        case Abort => Outcome(prev.written, true)
        case Write(r) => Outcome(prev.written + [r], false)
  }

  /** The indices of the records that pass the type filter, in input order. */
  function Kept(t: SvType, recs: seq<Record>): (ks: seq<nat>)
    ensures |ks| <= |recs|
    ensures forall k :: 0 <= k < |ks| ==> ks[k] < |recs|
  {
    if recs == [] then []
    else Kept(t, recs[..|recs| - 1]) + (if Selected(t, recs[|recs| - 1]) then [|recs| - 1] else [])
  }

  /** Kept lists every record that passes the filter, once each, in increasing order. */
  lemma {:induction false} KeptExactlySelected(t: SvType, recs: seq<Record>)
    ensures forall k, l :: 0 <= k < l < |Kept(t, recs)| ==> Kept(t, recs)[k] < Kept(t, recs)[l]
    ensures forall i: nat :: i in Kept(t, recs) <==> i < |recs| && Selected(t, recs[i])
  {
    if recs != [] {
      var n := |recs| - 1;
      KeptExactlySelected(t, recs[..n]);
      forall i: nat | i < n
        ensures recs[..n][i] == recs[i]
      {
      }
    }
  }

  predicate NoAbort<A>(cfg: Config, eng: Engine<A>, chrom: string, recs: seq<Record>)
    requires AllDefined(cfg, chrom, recs)
  {
    forall i :: 0 <= i < |recs| ==> !Annotated(cfg, eng, chrom, recs[i]).Abort?
  }

  /**
   * When no record throws, the loop writes the annotated form of exactly the
   * records that pass the type filter, each once and in input order.
   */
  lemma {:induction false} RunInOrder<A>(cfg: Config, eng: Engine<A>, chrom: string, recs: seq<Record>)
    requires AllDefined(cfg, chrom, recs) && NoAbort(cfg, eng, chrom, recs)
    ensures var o := Run(cfg, eng, chrom, recs);
            var ks := Kept(cfg.svType, recs);
            && !o.aborted
            && |o.written| == |ks|
            && forall k :: 0 <= k < |ks| ==> Annotated(cfg, eng, chrom, recs[ks[k]]) == Write(o.written[k])
  {
    if recs != [] {
      var n := |recs| - 1;
      var prefix := recs[..n];
      assert forall i :: 0 <= i < n ==> prefix[i] == recs[i];
      RunInOrder(cfg, eng, chrom, prefix);
    }
  }

  /** Once the loop has ended with an exception, later records change nothing. */
  lemma {:induction false} AbortSticks<A>(cfg: Config, eng: Engine<A>, chrom: string, recs: seq<Record>, i: nat)
    requires AllDefined(cfg, chrom, recs) && i <= |recs|
    requires Run(cfg, eng, chrom, recs[..i]).aborted
    ensures Run(cfg, eng, chrom, recs) == Run(cfg, eng, chrom, recs[..i])
    decreases |recs|
  {
    if i < |recs| {
      var prefix := recs[..|recs| - 1];
      assert prefix[..i] == recs[..i];
      assert AllDefined(cfg, chrom, prefix) by {
        forall j | 0 <= j < |prefix|
          ensures RecordDefined(cfg, chrom, prefix[j])
        {
          assert prefix[j] == recs[j];
        }
      }
      AbortSticks(cfg, eng, chrom, prefix, i);
      assert Run(cfg, eng, chrom, prefix).aborted;
    } else {
      assert recs[..i] == recs;
    }
  }

  /**
   * If record j is the first to throw, the run ends there: what was written
   * before it stays written and nothing after it is.
   */
  lemma RunStopsAtAbort<A>(cfg: Config, eng: Engine<A>, chrom: string, recs: seq<Record>, j: nat)
    requires AllDefined(cfg, chrom, recs) && j < |recs|
    requires Annotated(cfg, eng, chrom, recs[j]).Abort?
    requires forall i :: 0 <= i < j ==> !Annotated(cfg, eng, chrom, recs[i]).Abort?
    ensures Run(cfg, eng, chrom, recs) == Outcome(Run(cfg, eng, chrom, recs[..j]).written, true)
  {
    var prefix := recs[..j];
    assert forall i :: 0 <= i < j ==> prefix[i] == recs[i];
    RunInOrder(cfg, eng, chrom, prefix);
    assert recs[..j + 1][..j] == prefix;
    AbortSticks(cfg, eng, chrom, recs, j + 1);
  }

  /** The record loop for one contig, as runAnnotate runs it. */
  method AnnotateChromosome<A>(cfg: Config, eng: Engine<A>, chrom: string, recs: seq<Record>)
    returns (written: seq<Record>, aborted: bool)
    requires AllDefined(cfg, chrom, recs)
    ensures Outcome(written, aborted) == Run(cfg, eng, chrom, recs)
  {
    written, aborted := [], false;
    var i := 0;
    while i < |recs| && !aborted
      invariant 0 <= i <= |recs|
      invariant Outcome(written, aborted) == Run(cfg, eng, chrom, recs[..i])
    {
      assert recs[..i + 1][..i] == recs[..i];
      var step := AnnotateRecord(cfg, eng, chrom, recs[i]);
      match step {
        case Skip =>
        case Write(r) =>
          written := written + [r];
        case Abort =>
          aborted := true;
      }
      i := i + 1;
    }
    if aborted {
      AbortSticks(cfg, eng, chrom, recs, i);
    } else {
      assert recs[..i] == recs;
    }
  }

  /** One sequence of the reference FASTA file. */
  datatype Contig = Contig(name: string, bases: string)

  /**
   * The records the index query over the whole contig returns are defined for
   * it. header maps contig names to ids; query(id, length) is None when the
   * index has no entry.
   */
  predicate ContigDefined(cfg: Config, c: Contig, header: map<string, nat>,
                          query: (nat, nat) -> Option<seq<Record>>)
  {
    c.name in header && query(header[c.name], |c.bases|).Some? ==>
      AllDefined(cfg, c.bases, query(header[c.name], |c.bases|).value)
  }

  predicate GenomeDefined(cfg: Config, genome: seq<Contig>, header: map<string, nat>,
                          query: (nat, nat) -> Option<seq<Record>>)
  {
    forall k :: 0 <= k < |genome| ==> ContigDefined(cfg, genome[k], header, query)
  }

  /** What one contig contributes: nothing when the header or the index does not know it. */
  function ContigRun<A>(cfg: Config, eng: Engine<A>, c: Contig, header: map<string, nat>,
                        query: (nat, nat) -> Option<seq<Record>>): Outcome
    requires ContigDefined(cfg, c, header, query)
  {
    if c.name !in header then Outcome([], false)
    else
      match query(header[c.name], |c.bases|)
      case None => Outcome([], false)
      case Some(recs) => Run(cfg, eng, c.bases, recs)
  }

  /** The loop over the contigs of the reference (specification of AnnotateGenome). */
  function GenomeRun<A>(cfg: Config, eng: Engine<A>, genome: seq<Contig>, header: map<string, nat>,
                        query: (nat, nat) -> Option<seq<Record>>): Outcome
    requires GenomeDefined(cfg, genome, header, query)
    decreases |genome|
  {
    if genome == [] then Outcome([], false)
    else
      var prev := GenomeRun(cfg, eng, genome[..|genome| - 1], header, query);
      if prev.aborted then prev
      else
        var o := ContigRun(cfg, eng, genome[|genome| - 1], header, query);
        Outcome(prev.written + o.written, o.aborted)
  }

  /** A contig the header does not name contributes nothing, wherever it stands. */
  lemma {:induction false} GenomeSkipsUnknownContig<A>(cfg: Config, eng: Engine<A>, g1: seq<Contig>, c: Contig,
                                                       g2: seq<Contig>, header: map<string, nat>,
                                                       query: (nat, nat) -> Option<seq<Record>>)
    requires GenomeDefined(cfg, g1 + [c] + g2, header, query) && c.name !in header
    ensures GenomeDefined(cfg, g1 + g2, header, query)
    ensures GenomeRun(cfg, eng, g1 + [c] + g2, header, query) == GenomeRun(cfg, eng, g1 + g2, header, query)
    decreases |g2|
  {
    var whole := g1 + [c] + g2;
    forall k | 0 <= k < |g1 + g2|
      ensures ContigDefined(cfg, (g1 + g2)[k], header, query)
    {
      if k < |g1| {
        assert (g1 + g2)[k] == whole[k];
      } else {
        assert (g1 + g2)[k] == whole[k + 1];
      }
    }
    if g2 == [] {
      assert whole[..|whole| - 1] == g1;
      assert g1 + g2 == g1;
    } else {
      var g2' := g2[..|g2| - 1];
      assert whole[..|whole| - 1] == g1 + [c] + g2';
      assert (g1 + g2)[..|g1 + g2| - 1] == g1 + g2';
      assert whole[|whole| - 1] == (g1 + g2)[|g1 + g2| - 1];
      forall k | 0 <= k < |g1 + [c] + g2'|
        ensures ContigDefined(cfg, (g1 + [c] + g2')[k], header, query)
      {
        assert (g1 + [c] + g2')[k] == whole[k];
      }
      GenomeSkipsUnknownContig(cfg, eng, g1, c, g2', header, query);
    }
  }

  /** Once a contig's loop has ended with an exception, later contigs change nothing. */
  lemma {:induction false} GenomeAbortSticks<A>(cfg: Config, eng: Engine<A>, genome: seq<Contig>, i: nat,
                                                header: map<string, nat>, query: (nat, nat) -> Option<seq<Record>>)
    requires GenomeDefined(cfg, genome, header, query) && i <= |genome|
    requires GenomeRun(cfg, eng, genome[..i], header, query).aborted
    ensures GenomeRun(cfg, eng, genome, header, query) == GenomeRun(cfg, eng, genome[..i], header, query)
    decreases |genome|
  {
    if i < |genome| {
      var n := |genome| - 1;
      assert genome[..n][..i] == genome[..i];
      GenomeAbortSticks(cfg, eng, genome[..n], i, header, query);
    } else {
      assert genome[..i] == genome;
    }
  }

  /**
   * The loop over the reference contigs: contigs the header does not name, or
   * that the index has no records for, are skipped; the others' records are
   * annotated and appended in order.
   */
  method AnnotateGenome<A>(cfg: Config, eng: Engine<A>, genome: seq<Contig>, header: map<string, nat>,
                           query: (nat, nat) -> Option<seq<Record>>)
    returns (written: seq<Record>, aborted: bool)
    requires GenomeDefined(cfg, genome, header, query)
    ensures Outcome(written, aborted) == GenomeRun(cfg, eng, genome, header, query)
  {
    written, aborted := [], false;
    var k := 0;
    while k < |genome| && !aborted
      invariant 0 <= k <= |genome|
      invariant Outcome(written, aborted) == GenomeRun(cfg, eng, genome[..k], header, query)
    {
      assert genome[..k + 1][..k] == genome[..k];
      var c := genome[k];
      assert ContigDefined(cfg, c, header, query);
      if c.name in header {
        var chrid := header[c.name];
        var recs := query(chrid, |c.bases|);
        if recs.Some? {
          var w, a := AnnotateChromosome(cfg, eng, c.bases, recs.value);
          written := written + w;
          aborted := a;
        }
      }
      k := k + 1;
    }
    if aborted {
      GenomeAbortSticks(cfg, eng, genome, k, header, query);
    } else {
      assert genome[..k] == genome;
    }
  }
}
