/**
 * The type filter as written. The loop reads SVTYPE into a buffer that is
 * declared once, before the loop over contigs, and never cleared. htslib's
 * bcf_get_info_string leaves that buffer untouched when a record has no
 * SVTYPE. So the test "the buffer is set and differs from the selected type"
 * sees the SVTYPE of the last record that had one, and a record without
 * SVTYPE is judged by that earlier record's type. The END and CONSENSUS
 * buffers are reused in the same way. The rest of the model reads each
 * record's own fields (Rewrite.Selected).
 */
module StaleBuffers {
  import opened Cpp
  import opened Records
  import opened Rewrite
  import opened Annotate

  /** The SVTYPE buffer after the loop has read recs, starting from buf. */
  function SvtBufferAfter(buf: Option<string>, recs: seq<Record>): Option<string> {
    if recs == [] then buf
    else if recs[|recs| - 1].svType.Some? then recs[|recs| - 1].svType
    else SvtBufferAfter(buf, recs[..|recs| - 1])
  }

  /** The type filter as written: it tests the buffer, not the record. */
  predicate SelectedAsWritten(t: SvType, buf: Option<string>, rec: Record) {
    var svt := if rec.svType.Some? then rec.svType else buf;
    svt.None? || svt.value == TypeId(t)
  }

  /** The indices of the records that the filter as written lets through. */
  function KeptAsWritten(t: SvType, buf: Option<string>, recs: seq<Record>): seq<nat> {
    if recs == [] then []
    else
      var n := |recs| - 1;
      KeptAsWritten(t, buf, recs[..n]) + (if SelectedAsWritten(t, SvtBufferAfter(buf, recs[..n]), recs[n]) then [n] else [])
  }

  /**
   * An INS record followed by a record without SVTYPE, in a DEL run: the
   * filter as written drops both. The second record is dropped because of the
   * first record's type. Filtering each record on its own fields keeps the
   * second record.
   */
  lemma StaleSvTypeDropsUntypedRecord()
    ensures var ins := Record(0, 100, ["N", "<INS>"], Some("INS"), None, false, None, None, None, None, None);
            var bare := ins.(svType := None);
            && KeptAsWritten(Deletion, None, [ins, bare]) == []
            && Kept(Deletion, [ins, bare]) == [1]
  {
    var ins := Record(0, 100, ["N", "<INS>"], Some("INS"), None, false, None, None, None, None, None);
    var bare := ins.(svType := None);
    var recs := [ins, bare];
    assert recs[..1] == [ins];
    assert [ins][..0] == [];
    assert SvtBufferAfter(None, [ins]) == Some("INS");
    assert KeptAsWritten(Deletion, None, [ins]) == [];
    assert Kept(Deletion, [ins]) == [];
  }

  /**
   * When every record carries SVTYPE, the filter as written keeps exactly the
   * records the per-record filter keeps: the discrepancy needs a record
   * without SVTYPE.
   */
  lemma {:induction false} AsWrittenAgreesWhenTyped(t: SvType, buf: Option<string>, recs: seq<Record>)
    requires forall i :: 0 <= i < |recs| ==> recs[i].svType.Some?
    ensures KeptAsWritten(t, buf, recs) == Kept(t, recs)
  {
    if recs != [] {
      var n := |recs| - 1;
      var prefix := recs[..n];
      assert forall i :: 0 <= i < n ==> prefix[i] == recs[i];
      AsWrittenAgreesWhenTyped(t, buf, prefix);
    }
  }
}
