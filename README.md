# delly annotate: breakpoint rewrite of SV records

This project models the `annotate` step of DELLY in Dafny. It reads structural-variant (SV) records from a BCF file and tries to turn each precise, short call into a base-exact one.

For each record the step does this:

- It extracts a window of the reference around the call: the contig slice `[pos - |consensus|, END + |consensus|)`, clamped to the contig and upper-cased.
- It aligns the record's upper-cased CONSENSUS sequence against that window and looks for the split.
- On success it rewrites the record. POS moves to the anchor base. REF and ALT become explicit sequences that share that anchor base. END, INSLEN, SRQ (alignment quality) and CE (consensus entropy) are set.
- If the record is imprecise or too long, or if the alignment or the split fails, it gets the symbolic alleles instead: the reference base at POS and `<DEL>` or `<INS>`.
- Records of another SV type are not written at all.

The model has five modules:

- `Cpp` (`cpp.dfy`): the C++ behaviour the step relies on.
  - `int32_t` and `uint32_t` conversions.
  - ASCII upper-casing.
  - `std::string::substr`, including its `std::out_of_range` exception.
- `Records` (`records.dfy`): the data model.
  - The BCF record.
  - The SV types, their SVTYPE identifiers and the command's DEL/INS dispatch.
  - The run configuration.
  - The aligner, split finder and entropy. Their code is not part of this model, so they appear as function-valued fields of `Engine`.
- `Rewrite` (`rewrite.dfy`): the per-record decision as pure functions, with lemmas about it.
- `Annotate` (`annotate.dfy`): the loops of `runAnnotate` as methods, proved against specification functions.
  - `AnnotateRecord` updates a record field by field and uses a `useTags` flag.
  - `AnnotateChromosome` loops over one contig's records.
  - `AnnotateGenome` loops over the reference contigs.
  - The module also holds lemmas about the loop's output: which records are kept, their order, and what happens after an exception.
- `StaleBuffers` (`stale_buffers.dfy`): the SVTYPE filter as written, with its reused buffer (see Findings).

What the model assumes of its inputs and collaborators:

- Three cases become a precondition (`Rewrite.RecordDefined`) instead of being modelled:
  - a refined record without END or CONSENSUS. The END and CONSENSUS buffers are declared once (annotate.cpp:108-113) and never cleared. Before any record has carried the tag, the source dereferences a null pointer. After that, it reads the previous record's value. The model excludes both cases and reads each record's own fields;
  - an invalid window range;
  - signed overflow of `END - pos`.
- An uncaught `substr` exception ends the run. The model calls this `Abort`.
- The `uint32_t` arithmetic of the window end is written out in `Rewrite.RegEnd`.
- The `int32_t` stores of POS, END and INSLEN are written out with `Cpp.NarrowToInt32`.

Two behaviours of the code that are easy to miss:

- MICROHOMLEN is never written, although the homology is computed. The code that would write it is commented out.
- Records with a different SVTYPE are dropped. They are not written unchanged.

## Model

| member | source | states |
|---|---|---|
| `Records.Dispatch` | src/annotate.cpp:324-329 | Only "DEL" and "INS" select a type, and the selected type's identifier is the name given. Any other name gives no type, so the command exits with status 1. |
| `Rewrite.IneligibleIgnoresEngine` | src/annotate.cpp:144-159 | No alignment is tried for a record that fails the type filter, is not PRECISE, or spans more than maxlen (END - POS, or 1 without END). Its outcome is the same for any aligner, split finder and entropy. |
| `Rewrite.RegStart` | src/annotate.cpp:169 | The window start is non-negative, is at least pos - consensus length, equals 0 or pos - consensus length, and is at most pos. |
| `Rewrite.RegEnd` | src/annotate.cpp:170 | The window end, computed in `uint32_t`, never exceeds the contig length. It is non-negative for contigs shorter than 2^31. Where the sum does not wrap it is min(END + consensus length, contig length). |
| `Rewrite.WindowBounds` | src/annotate.cpp:165-171 | The window satisfies 0 <= regStart <= pos and regEnd <= contig length. Its length is regEnd - regStart. Each of its characters is the upper-cased contig base at regStart + k. |
| `Rewrite.RefinedAlleles` | src/annotate.cpp:200-204 | The alleles can be built (no substr throws) exactly when 2 <= rStart <= window length + 2, rStart - 1 <= window length when REF has a tail, and 1 <= cStart <= consensus length + 1 when ALT has a tail. |
| `Rewrite.RefIsWindowSlice` | src/annotate.cpp:200-202 | The refined REF is the contiguous window slice that starts at the anchor rStart - 2. |
| `Rewrite.AnchorShared` | src/annotate.cpp:200-204 | When the anchor lies in the window, REF and ALT both begin with the anchor base `svRefStr[rStart-2]`. |
| `Rewrite.AlleleLengths` | src/annotate.cpp:200-204 | Take a split inside the window with rStart >= 2, and cStart >= 1 when ALT has a tail. Then the alleles exist. REF has length 1 + (rEnd - rStart) if rEnd > rStart + 1, else 1. ALT has length 1 + (cEnd - cStart) if cEnd > cStart + 1, else 1. The tails are window[rStart-1, rEnd-1) and consensus[cStart-1, cEnd-1). |
| `Rewrite.RefinedRefIsReference` | src/annotate.cpp:200-207 | The refined POS is regStart + rStart - 2, with no int32 wrap. The refined REF is the upper-cased contig at that POS. |
| `Rewrite.WrittenRefIsReference` | src/annotate.cpp:200-228 | Every written record, refined or symbolic, has two alleles. Its REF lies inside the contig at the record's (new) POS and equals the upper-cased contig there. |
| `Rewrite.RefinedCoordinates` | src/annotate.cpp:207-219 | A refined record whose split lies in the window gets POS = regStart + rStart - 2, END = regStart + rEnd and INSLEN = cEnd - cStart - 1. So END - POS = rEnd - rStart + 2 and END >= POS + 2. SRQ is the split quality and CE the consensus entropy. |
| `Rewrite.Annotated` | src/annotate.cpp:144-229 | A record is skipped if and only if it fails the type filter. An exception is possible only after the alignment and the split have both succeeded. |
| `Rewrite.FallbackIsSymbolic` | src/annotate.cpp:158-228 | Take a record that is ineligible, or whose alignment or split fails. It is written with exactly the alleles [upper(chrom[pos]), "<" + TYPE + ">"], and every other field is unchanged: POS, END and INSLEN included. |
| `Rewrite.FallbackIdempotent` | src/annotate.cpp:223-228 | Annotating an ineligible record's output a second time writes the same record again. |
| `Rewrite.OnlyRewrittenFieldsChange` | src/annotate.cpp:196-219 | A written record differs from its input at most in POS, alleles, END, INSLEN, SRQ and CE. MICROHOMLEN is unchanged. |
| `Cpp.Upper` | src/annotate.cpp:165 | Upper-casing keeps the length and upper-cases each character. |
| `Cpp.Substr` | src/annotate.cpp:200-204 | `substr(p, n)` succeeds exactly when 0 <= p <= length. It then returns the min(n, length - p) characters starting at p. |
| `Cpp.NarrowToInt32` | src/annotate.cpp:207-214 | Storing a value that fits `int32_t` keeps it unchanged. |
| `Annotate.AnnotateRecord` | src/annotate.cpp:144-229 | The field-by-field update with the `useTags` flag returns exactly the step the per-record decision `Annotated` specifies. |
| `Annotate.BuildAlleles` | src/annotate.cpp:200-204 | Building the alleles by substr and concatenation gives exactly `RefinedAlleles`, and fails when a substr throws. |
| `Annotate.Run` | src/annotate.cpp:139-231 | The record loop never writes more records than it reads. |
| `Annotate.KeptExactlySelected` | src/annotate.cpp:146 | The kept indices are strictly increasing, and an index is kept if and only if its record passes the type filter. A record without SVTYPE always passes. |
| `Annotate.RunInOrder` | src/annotate.cpp:139-230 | When no record throws, the loop completes. It writes one record per kept index, in input order, and each is the annotated form of that record. |
| `Annotate.AbortSticks` | src/annotate.cpp:139-231 | After an exception, further records change nothing in the output. |
| `Annotate.RunStopsAtAbort` | src/annotate.cpp:139-231 | Suppose record j is the first to throw. Then the output is what the records before j wrote, and the run is marked as ended by the exception. |
| `Annotate.AnnotateChromosome` | src/annotate.cpp:136-234 | The loop over one contig's records computes exactly `Run`. |
| `Annotate.GenomeSkipsUnknownContig` | src/annotate.cpp:131-135 | A contig whose name the header does not know contributes nothing, wherever it stands in the reference. |
| `Annotate.GenomeAbortSticks` | src/annotate.cpp:131-235 | After an exception, later contigs change nothing in the output. |
| `Annotate.AnnotateGenome` | src/annotate.cpp:131-235 | The loop over the reference contigs computes exactly `GenomeRun`. Contigs unknown to the header or the index are skipped. The other contigs' outputs are appended in reference order. |
| `StaleBuffers.StaleSvTypeDropsUntypedRecord` | src/annotate.cpp:145-146 | In a DEL run, an INS record followed by a record without SVTYPE: the filter as written keeps neither, while the per-record filter keeps the second. |
| `StaleBuffers.AsWrittenAgreesWhenTyped` | src/annotate.cpp:145-146 | When every record carries SVTYPE, the filter as written and the per-record filter keep the same records. |

## Left out

- BCF reading and writing, header editing and index building (annotate.cpp:89-106, 230, 245-254): this is file I/O through htslib. A record is a value, and the written records are returned as a sequence.
- FASTA streaming through kseq/gzip (annotate.cpp:127-136): this is I/O. It is reduced to a sequence of (name, bases) contigs, a name-to-id map for the header, and a function for the index query.
- The bodies of `_consRefAlignment`, `_findSplit`, `_findHomology`, `entropy` and `_addID` are not part of this model. The first three live in junction.h, the others in util.h and tags.h.
  - The aligner, the split finder and entropy are arbitrary functions in `Records.Engine`.
  - `_findHomology` is left out because its result is never used.
  - `_addID` is taken to give "DEL" and "INS".
- SRQ and CE are modelled as `real`. The conversion of `double` to `float` is not modelled.
- Bounds on the microhomology lengths and on the entropy, and the behaviour of the aligner on particular inputs, depend on code outside this model and are not stated.
- Progress display, timestamps, console output, option parsing and the reference-file check (annotate.cpp:122-124, 257-258, 268-321) are orchestration.
- Freeing the INFO buffers (annotate.cpp:240-242) is C memory management. Their reuse across records is modelled only for SVTYPE (see Findings). The main model reads each record's own END and CONSENSUS.
- Rewrite.RecordDefined: it requires every record that passes the type filter to lie on the contig (0 <= pos < length). The source reads that base only on the symbolic path. The records come from an index query over the whole contig.
- Rewrite.RefinedCoordinates: it is stated only for splits inside the window, the split finder's own invariant. Without it, the int32 stores of END and INSLEN may wrap.
- Rewrite.AnchorShared: it is stated only when the anchor index rStart - 2 is inside the window. When it equals the window length, substr returns an empty anchor.
- htslib's splitting of the allele string on commas is not modelled. The alleles are stored as the pair [REF, ALT].
- The int32 overflow of `END - pos` (annotate.cpp:151) is undefined behaviour. The model excludes it as a precondition rather than modelling a result.

## Findings

| source | as written | input that shows it | evidently intended | confidence | as-written member | corrected member |
|---|---|---|---|---|---|---|
| src/annotate.cpp:145-146 | SVTYPE is read into a buffer shared by all records (declared at lines 111-112). htslib leaves that buffer untouched when a record has no SVTYPE, so `svt != NULL` tests the last SVTYPE seen. END and CONSENSUS (lines 149, 164) are reused the same way. | A DEL run over an SVTYPE=INS record followed by a record without SVTYPE drops the second record. | A record without SVTYPE passes the filter (`svt != NULL` meaning "this record has SVTYPE"). | medium, not executed | `StaleBuffers.StaleSvTypeDropsUntypedRecord` | `Annotate.KeptExactlySelected` |
