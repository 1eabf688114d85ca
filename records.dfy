/**
 * The variant record as the annotation step sees it, the run's
 * configuration, and the alignment collaborators whose code lives outside
 * this model (junction.h and util.h).
 */
module Records {
  import opened Cpp

  /** The SV types the command is instantiated for (DeletionTag, InsertionTag). */
  datatype SvType = Deletion | Insertion

  /** The SVTYPE identifier of a type, as _addID in tags.h gives it. */
  function TypeId(t: SvType): string {
    match t
    case Deletion => "DEL"
    case Insertion => "INS"
  }

  /**
   * The command's type dispatch: "DEL" and "INS" run the annotation; any other
   * type name makes the command exit with status 1 (None).
   */
  function Dispatch(name: string): (t: Option<SvType>)
    ensures t.Some? <==> name == "DEL" || name == "INS"
    ensures t.Some? ==> TypeId(t.value) == name
  {
    if name == "DEL" then Some(Deletion)
    else if name == "INS" then Some(Insertion)
    else None
  }

  /**
   * One BCF record: its contig id, 0-based position, alleles (REF first, then
   * ALT) and the INFO fields the step reads or writes. An absent INFO field is
   * None; PRECISE is a flag.
   */
  datatype Record = Record(
    rid: int,
    pos: Int32,
    alleles: seq<string>,
    svType: Option<string>,      // SVTYPE
    end: Option<Int32>,          // END
    precise: bool,               // PRECISE
    consensus: Option<string>,   // CONSENSUS
    insLen: Option<Int32>,       // INSLEN
    srq: Option<real>,           // SRQ, alignment quality
    ce: Option<real>,            // CE, consensus entropy
    microHomLen: Option<Int32>)  // MICROHOMLEN

  /** The selected SV type and the largest span that is still refined (-m, 500 by default). */
  datatype Config = Config(svType: SvType, maxLen: Int32)

  /**
   * What _findSplit reports: the consensus interval, the reference-window
   * interval, the matrix coordinates of the indel and the alignment quality.
   */
  datatype SplitPoint = SplitPoint(
    cStart: int, cEnd: int, rStart: int, rEnd: int, gS: int, gE: int, quality: real)

  /**
   * The collaborators of the rewrite, over an alignment matrix of type A:
   * _consRefAlignment (None when it reports failure), _findSplit (None when it
   * reports failure) and entropy.
   */
  datatype Engine<!A> = Engine(
    align: (string, string, SvType) -> Option<A>,
    findSplit: (A, SvType) -> Option<SplitPoint>,
    entropy: string -> real)
}
