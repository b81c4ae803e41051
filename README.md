# Zeiss LSM reader: a Dafny model

This project models the core of the Bio-Formats Zeiss LSM reader
(`ZeissLSMReader.java`). This reader turns the TIFF envelope and the
private `CZ_LSMINFO` structure of an LSM file into series dimensions and
metadata-store calls. The model covers five parts:

- **Envelope normalisation** (`envelope.dfy`, module `Envelope`):
  - thumbnail image descriptors are dropped;
  - the PREDICTOR entry is forced to 1 on every descriptor that is not LZW-compressed;
  - first strip offsets that wrapped past 4 GiB are corrected in ascending descriptor order, in place on an array.
- **Dimension logic** (`dimensions.dfy`, module `Dimensions`):
  - the scan-type table of dimension orders;
  - the RGB rewrite that moves C next to "XY";
  - reconciliation of Z and T with the number of stored planes, in Java 32-bit `int` arithmetic with truncating `/` and `%`;
  - the split-planes decision;
  - the plane remapping of `openBytes`.

  The series' core metadata is a class (`CoreMetadata`) whose fields the methods update.
- **The scan-information walk**:
  - `lsm_stream.dfy` is the stream: bytes, byte order, a position, Java `RandomAccessFile` seek, read and skip behaviour.
  - `scan_values.dfy` holds `readValue` and `SubBlock.read`.
  - `scan_walk.dfy` holds the tag/type/size cursor loop. A SUBBLOCK header with an unknown tag is entered rather than skipped.
- **Per-record derivation, validation and population** (`scan_blocks.dfy`, `lsm_reader.dfy`):
  - each record type's `read()`: objective tokenisation, laser classification, data-channel name truncation, acquire defaults, and the unboxing failures a missing tag causes;
  - the drop-then-validate pass over the record list;
  - `populateMetadataStore`, with its four slot counters. It writes to an append-only log of store calls (`StoreEvent`).

  The reader-wide state (counters, split flag, log) is the class `LsmReaderState`.
- **Framing rules** (`framing.dfy`):
  - the event-list count and description-length clamps;
  - the overlay header rule and the per-shape re-seek;
  - `getUsedFiles`.

Java runtime behaviour lives in `java_runtime.dfy` and is written out explicitly:

- 32-bit wrap-around;
- truncating division and remainder;
- the exceptions that escape as faults: null dereference, class cast, negative array size, string index, division by zero, negative seek, end of file.

The offset fix-up adds `0xFFFFFFFF`, not 2^32 (see Findings). With Z = 4, T = 3 and 10 stored planes, the difference 2 is divisible by neither Z nor T, so the third reconciliation rule fires (Z = 10, T = 1; `Dimensions.MismatchScenario`).

All source paths below are relative to the repository root.

## Model

| member | source | states |
|---|---|---|
| Envelope.KeptFramesAreNonThumbnails | components/bio-formats/src/loci/formats/in/ZeissLSMReader.java:318-334 | The kept descriptors are exactly the ones whose NEW_SUBFILE_TYPE is 0, in their original order, one for one. Each is altered only by the predictor fix. |
| Envelope.KeptFramesPredictor | components/bio-formats/src/loci/formats/in/ZeissLSMReader.java:318-334 | No kept descriptor is a thumbnail, and every kept non-LZW descriptor has PREDICTOR = 1. |
| Envelope.NonThumbnailsFrom | components/bio-formats/src/loci/formats/in/ZeissLSMReader.java:320-332 | The reference list of kept indices is strictly ascending. It contains every non-thumbnail index and nothing else. |
| Envelope.RemoveThumbnails | components/bio-formats/src/loci/formats/in/ZeissLSMReader.java:318-334 | The filtering loop produces exactly the kept-frames list. |
| Envelope.FixedOffsetsAt | components/bio-formats/src/loci/formats/in/ZeissLSMReader.java:337-348 | Entry 0 never changes. Entry i is the fix-up applied to the original entry i against the already-corrected entry i-1, so the walk is in ascending order. |
| Envelope.FixedOffsetsChangeOnlyOffsets | components/bio-formats/src/loci/formats/in/ZeissLSMReader.java:337-348 | Only STRIP_OFFSETS can change. It becomes the masked offset plus the step exactly on a strict `prev > this`; otherwise the descriptor is untouched. |
| Envelope.AscendingOffsetsUnchanged | components/bio-formats/src/loci/formats/in/ZeissLSMReader.java:337-348 | A non-decreasing list of unsigned 32-bit offsets is left unchanged. |
| Envelope.FixStripOffsets | components/bio-formats/src/loci/formats/in/ZeissLSMReader.java:337-348 | The in-place loop succeeds iff there is at most one descriptor or every descriptor has strip offsets, and then leaves the array equal to the specified fix-up of its old contents. Otherwise it fails with a missing-offsets fault at step max(1, first descriptor without offsets): the entries before that step are corrected and the rest are untouched. |
| Envelope.FixEntry | components/bio-formats/src/loci/formats/in/ZeissLSMReader.java:337-348 | One loop step, once both offsets it reads exist: the array's prefix through entry i becomes the fix-up of the original prefix, and the rest stays as it was. |
| Envelope.MissingAt | components/bio-formats/src/loci/formats/in/ZeissLSMReader.java:337-341 | A step that finds entry i or i - 1 without strip offsets, after earlier steps found them, is step max(1, first descriptor without offsets), and the list is not readable by the fix-up. |
| Envelope.NormalizeSeries | components/bio-formats/src/loci/formats/in/ZeissLSMReader.java:318-348 | A fresh array holds the thumbnail-free, offset-fixed descriptor list. It fails iff at least two descriptors are kept and one of them lacks strip offsets, and then holds the partly corrected list the fix-up loop leaves. |
| Envelope.AsWrittenOffsetOneShort | components/bio-formats/src/loci/formats/in/ZeissLSMReader.java:344 | With the source's 0xFFFFFFFF step, a plane stored just past 4 GiB lands one byte before its true offset. The 2^32 step gets it right. |
| Envelope.CorrectedOffsetsRecoverTrueOffsets | components/bio-formats/src/loci/formats/in/ZeissLSMReader.java:337-348 | With a 2^32 step, the fix-up recovers every true offset of an in-order file under 8 GiB from its 32-bit residues. |
| Dimensions.DimensionOrderIsPermutation | components/bio-formats/src/loci/formats/in/ZeissLSMReader.java:440-489 | Every scan type, known or not, selects a permutation of XYZCT that starts with "XY". |
| Dimensions.RgbOrderPutsChannelThird | components/bio-formats/src/loci/formats/in/ZeissLSMReader.java:500-503 | The RGB rewrite of any scan type's order is still such a permutation, with C third. Z and T keep their relative order. |
| Dimensions.ChannelAfterXYMovesC | components/bio-formats/src/loci/formats/in/ZeissLSMReader.java:500-503 | Removing C and then rewriting "XY" to "XYC" yields "XYC" followed by the rest of the order without C. |
| Dimensions.CoreMetadata.ReadHeader | components/bio-formats/src/loci/formats/in/ZeissLSMReader.java:369-505 | After the header: RGB iff more than one sample or photometric RGB; sizeC is the samples under RGB, else 1; Z and T come from the LSM header; image count is the plane count; not indexed, not interleaved. Sizes X and Y are the widths truncated to `int`. |
| Dimensions.ReconcileConsistentIsNoop | components/bio-formats/src/loci/formats/in/ZeissLSMReader.java:506-512 | When Z·T·effective C already equals the plane count, reconciliation changes nothing but the image count, which it sets to that count. |
| Dimensions.AdjustPrecedence | components/bio-formats/src/loci/formats/in/ZeissLSMReader.java:513-530 | Exactly one of the four adjustments applies, in fixed order: Z divides diff (T becomes T - diff/Z, wrapped to `int`); T divides diff (Z becomes Z - diff/T, wrapped); Z > 1 (Z = count, T = 1); T > 1 (T = count, Z = 1); otherwise nothing. C, the image count, RGB and the order are kept. |
| Dimensions.ReconcileZeroZFails | components/bio-formats/src/loci/formats/in/ZeissLSMReader.java:513-516 | A mismatch with Z = 0 throws a division by zero at the first test. |
| Dimensions.ReconcileRestoresPlaneCount | components/bio-formats/src/loci/formats/in/ZeissLSMReader.java:506-533 | With effective C = 1 and positive Z and T whose product fits in an `int`, reconciliation succeeds. It leaves image count = plane count = Z·T and keeps sizeC, RGB and the order. |
| Dimensions.CoreMetadata.ReconcilePlaneCount | components/bio-formats/src/loci/formats/in/ZeissLSMReader.java:506-533 | The in-place update fails exactly as the reconciliation function does. On success the fields equal its result, and X, Y and the colour flags stay unchanged. |
| Dimensions.CoreMetadata.AdjustSizes | components/bio-formats/src/loci/formats/in/ZeissLSMReader.java:513-530 | The in-place adjustment fails exactly as the four-rule function does. On success the fields equal its result, and X, Y and the colour flags stay unchanged. |
| Dimensions.CoreMetadata.FillZeros | components/bio-formats/src/loci/formats/in/ZeissLSMReader.java:532-533 | The in-place zero fix-ups fail exactly as the specifying function does (a division by zero when T, Z and the image count are all 0). On success the fields equal its result. |
| Dimensions.AdjustRestoresPlaneCount | components/bio-formats/src/loci/formats/in/ZeissLSMReader.java:513-530 | With positive Z and T whose product fits in an `int` and differs from the plane count, the adjustment succeeds. Z·T then equals the plane count, neither is negative, at least one is positive, and nothing else changes. |
| Dimensions.SplitFlagLeaksAcrossSeries | components/bio-formats/src/loci/formats/in/ZeissLSMReader.java:742-747 | The split flag is reader-wide. A later series whose channel counts do not match inherits the earlier series' `true`, and its dimensions stay unchanged. |
| LsmReader.LsmReaderState.DecideSplitPlanes | components/bio-formats/src/loci/formats/in/ZeissLSMReader.java:742-747 | When the assigned channel count (1 if none) equals sizeC: split iff the series was RGB; RGB is cleared; the image count is multiplied by sizeC only on a split. Otherwise nothing changes, including the reader's flag. Counters and log are untouched. |
| Dimensions.PlaneSourceInRange | components/bio-formats/src/loci/formats/in/ZeissLSMReader.java:254-261 | Under split planes, logical plane `no` below planes·sizeC reads sample `no % sizeC` of stored plane `no / sizeC`. Both are in range, and plane·sizeC + sample gives `no` back. |
| Dimensions.PlaneSourceReaches | components/bio-formats/src/loci/formats/in/ZeissLSMReader.java:254-261 | Every (stored plane, sample) pair is reached from exactly the logical index plane·sizeC + sample, so the remap is a bijection. |
| ScanValues.ValueConsumption | components/bio-formats/src/loci/formats/in/ZeissLSMReader.java:1341-1357 | `readValue` consumes 8 header bytes plus 4 (LONG), 8 (RATIONAL), the declared size (ASCII; unknown types, clamped at end of file, give ""), or nothing (SUBBLOCK, the only type that gives no value). A negative ASCII size is a negative-array-size fault. |
| ScanValues.ReadValue | components/bio-formats/src/loci/formats/in/ZeissLSMReader.java:1341-1357 | Reading through the cursor gives the specified value and leaves the cursor just after it, or at the end of the file on an I/O error. |
| ScanValues.EntriesFrom | components/bio-formats/src/loci/formats/in/ZeissLSMReader.java:1374-1383 | The tag table only grows: every entry already present keeps its value. A completed table ends at least one entry past its start. What each entry stores is stated by NewTagIsStored, RepeatedTagKeepsFirst and SubblockEndsTable. |
| ScanValues.RepeatedTagKeepsFirst | components/bio-formats/src/loci/formats/in/ZeissLSMReader.java:1379 | A repeated tag is consumed but keeps its first value. |
| ScanValues.NewTagIsStored | components/bio-formats/src/loci/formats/in/ZeissLSMReader.java:1379-1381 | A tag not yet in the table is stored with the value `readValue` gives for it, reading resumes after that value, and the stored value is in the finished table. |
| ScanValues.SubblockEndsTable | components/bio-formats/src/loci/formats/in/ZeissLSMReader.java:1374-1383 | An entry whose value type is SUBBLOCK ends the table: the table read so far is the result, and reading resumes right after the entry's 12 bytes. |
| ScanValues.ReadBlockData | components/bio-formats/src/loci/formats/in/ZeissLSMReader.java:1374-1383 | The table-filling loop yields the specified table. It stops at the first SUBBLOCK-typed value, or at end of file, which the constructor's catch turns into a truncated table. |
| ScanWalk.UnknownSubblockIsEntered | components/bio-formats/src/loci/formats/in/ZeissLSMReader.java:673-707 | A SUBBLOCK header with an unknown tag costs only its 12 bytes, and the walk continues inside that block. |
| ScanWalk.OtherEntryIsSkipped | components/bio-formats/src/loci/formats/in/ZeissLSMReader.java:708 | Any entry that is not a SUBBLOCK is skipped by its declared size, clamped to the end of the file. A size that is not positive skips nothing. |
| ScanWalk.TruncatedRecordEndsWalk | components/bio-formats/src/loci/formats/in/ZeissLSMReader.java:1365-1371 | A record whose tag table runs into the end of the file is kept with nothing read, and it ends the walk. |
| ScanWalk.KnownRecordIsDerived | components/bio-formats/src/loci/formats/in/ZeissLSMReader.java:673-707 | A SUBBLOCK header with a known tag whose table ends cleanly and whose record builds contributes exactly that record, and the walk resumes after the table. |
| ScanWalk.FailedRecordEndsWalk | components/bio-formats/src/loci/formats/in/ZeissLSMReader.java:673-707 | A known record whose `read()` fails ends the walk with that fault. |
| ScanWalk.WalkFrom | components/bio-formats/src/loci/formats/in/ZeissLSMReader.java:667-709 | Every record the walk yields carries the fields of its own record type. The step for a known tag is stated by KnownRecordIsDerived and FailedRecordEndsWalk. |
| ScanWalk.ReadScanBlocks | components/bio-formats/src/loci/formats/in/ZeissLSMReader.java:667-709 | The cursor loop, which runs while more than 12 bytes remain, yields exactly the specified walk, including its faults. |
| ScanBlocks.KindOf | components/bio-formats/src/loci/formats/in/ZeissLSMReader.java:675-703 | A record is built exactly for the nine known SUBBLOCK tags. |
| ScanBlocks.RequireFlag | components/bio-formats/src/loci/formats/in/ZeissLSMReader.java:1473-1474 | An unconditional `(Long)` unboxing succeeds iff the tag is present and LONG-valued, and then yields "value != 0". |
| ScanBlocks.OptionalFlag | components/bio-formats/src/loci/formats/in/ZeissLSMReader.java:1510-1513 | A guarded acquire flag is true when the tag is absent and "value != 0" when it is LONG. Any other type is a cast failure. |
| ScanBlocks.AcquireDefaults | components/bio-formats/src/loci/formats/in/ZeissLSMReader.java:1363 | Recording, BeamSplitter, Timer and Marker stay acquired. IlluminationChannel and DataChannel default to acquired without their tag. Laser, Track and DetectionChannel cannot be built without it. |
| ScanBlocks.MissingTagsFail | components/bio-formats/src/loci/formats/in/ZeissLSMReader.java:1484-1487 | A DataChannel without a name fails with a null dereference, which the constructor's I/O catch does not stop. So does a Track, DetectionChannel or IlluminationChannel without its double-valued field. |
| ScanBlocks.PiecesRoundTrip | components/bio-formats/src/loci/formats/in/ZeissLSMReader.java:1416 | Splitting at every space and joining with spaces gives the text back. |
| ScanBlocks.DropTrailingEmpty | components/bio-formats/src/loci/formats/in/ZeissLSMReader.java:1416 | `split`'s trailing-empty rule: the result is a prefix; everything dropped is empty; the last kept piece is not empty. |
| ScanBlocks.IndexOf | components/bio-formats/src/loci/formats/in/ZeissLSMReader.java:1419 | `indexOf` returns -1 iff the character is absent, and otherwise its first occurrence. |
| ScanBlocks.FirstSlashTokenIsFirst | components/bio-formats/src/loci/formats/in/ZeissLSMReader.java:1418-1421 | Any index with no '/' before it that is either the end or a token holding '/' is the index the correction loop stops at. |
| ScanBlocks.ObjectiveCorrection | components/bio-formats/src/loci/formats/in/ZeissLSMReader.java:1413-1421 | The accumulating loop stops at the first token with '/', and the correction is the tokens before it glued together. |
| ScanBlocks.ObjectiveParts | components/bio-formats/src/loci/formats/in/ZeissLSMReader.java:1413-1438 | Parsing fails iff the first '/' token starts with '/' (the `substring` fault). Otherwise: the correction is the tokens before it; the magnification is the integer before the character preceding '/'; the aperture text follows '/'; with no such token there is neither. The immersion is the next token, or "Unknown" when there is none. Iris holds iff the token after the immersion, trimmed, equals "iris" ignoring case. |
| ScanBlocks.ParseJavaInt | components/bio-formats/src/loci/formats/in/ZeissLSMReader.java:1425-1427 | A non-empty digit string, optionally after one '-', is accepted iff its positional value (negated after '-') fits in an `int`, and the result is that value. Every other string is rejected. |
| ScanBlocks.DigitsValueFromFront | components/bio-formats/src/loci/formats/in/ZeissLSMReader.java:1425-1427 | The digit value read from the last digit back equals the positional value: the first digit weighs 10 to the number of digits after it. |
| ScanBlocks.Trim | components/bio-formats/src/loci/formats/in/ZeissLSMReader.java:1437 | The result is no longer than the input, and a non-empty result starts and ends above the space character. TrimIsInfix states which infix it is. |
| ScanBlocks.TrimIsInfix | components/bio-formats/src/loci/formats/in/ZeissLSMReader.java:1437 | The trimmed text is s[i..j], where every character before i and from j on is at most U+0020; with its own ends above U+0020, no longer run could be removed. |
| ScanBlocks.ClassifyLaserCases | components/bio-formats/src/loci/formats/in/ZeissLSMReader.java:1448-1471 | A known laser name gets type Gas or SolidState. An unknown name keeps its text as the type and gets an empty medium. The medium is non-empty exactly for HeNe, Argon and Ti:Sapphire/Mai Tai names. |
| ScanBlocks.NameBeforeControl | components/bio-formats/src/loci/formats/in/ZeissLSMReader.java:1523-1528 | The truncated name is a prefix with no character below code 10, and it stops exactly at the first such character. |
| ScanBlocks.NameBeforeControlUnique | components/bio-formats/src/loci/formats/in/ZeissLSMReader.java:1523-1528 | Any prefix with those three properties is the truncated name. |
| ScanBlocks.TruncateName | components/bio-formats/src/loci/formats/in/ZeissLSMReader.java:1523-1528 | The character loop produces the truncated name. |
| ScanBlocks.Derive | components/bio-formats/src/loci/formats/in/ZeissLSMReader.java:1400-1535 | A built record has the requested type and that type's fields. When it is built and what each field holds are stated by DeriveSucceeds and DerivedFields. |
| ScanBlocks.DeriveSucceeds | components/bio-formats/src/loci/formats/in/ZeissLSMReader.java:1400-1535 | Per record type, `read()` completes iff every tag it casts is absent or of the cast's type, every tag it unboxes is present, a DataChannel has a name, and a Recording's objective parses. BeamSplitter, Timer and Marker always complete. |
| ScanBlocks.DerivedFields | components/bio-formats/src/loci/formats/in/ZeissLSMReader.java:1400-1535 | Per record type, each built field is its tag's value: the Recording's description and objective parts, the Laser's medium and type by the name classification plus its power, the double-valued Track, DetectionChannel and IlluminationChannel fields, and the DataChannel name cut before its first control character. |
| LsmReader.Acquired | components/bio-formats/src/loci/formats/in/ZeissLSMReader.java:711-715 | The filtered list holds only acquired records, each drawn from the input. |
| LsmReader.AcquiredCounts | components/bio-formats/src/loci/formats/in/ZeissLSMReader.java:711-715 | Each acquired record keeps its multiplicity and each unacquired one disappears, so the filter is a sub-multiset. |
| LsmReader.AcquiredAppend | components/bio-formats/src/loci/formats/in/ZeissLSMReader.java:711-715 | The filter distributes over concatenation, so the original relative order is kept. |
| LsmReader.DropUnacquired | components/bio-formats/src/loci/formats/in/ZeissLSMReader.java:711-715 | The removal loop yields the filtered list. |
| LsmReader.ValidatedAt | components/bio-formats/src/loci/formats/in/ZeissLSMReader.java:717-738 | Validating one record keeps its type. A misplaced IlluminationChannel (not last, next record neither DataChannel nor IlluminationChannel) loses only its wavelength. A misplaced DetectionChannel (not first, previous record neither Track nor DetectionChannel) loses only its acquire flag. Every other record, well-placed channels included, is unchanged. |
| LsmReader.Validated | components/bio-formats/src/loci/formats/in/ZeissLSMReader.java:717-738 | Validation keeps the length, and every position follows the one-record rule against the input's types. |
| LsmReader.ValidatedGuarantees | components/bio-formats/src/loci/formats/in/ZeissLSMReader.java:717-738 | After validation: types are unchanged; a remaining wavelength is last or followed by DataChannel/IlluminationChannel; an acquired DetectionChannel after position 0 follows Track/DetectionChannel. Conversely, a well-placed IlluminationChannel or DetectionChannel is unchanged. A second validation changes nothing. |
| LsmReader.ValidationTouchesOnlyChannels | components/bio-formats/src/loci/formats/in/ZeissLSMReader.java:717-738 | Records other than illumination and detection channels pass validation unchanged. |
| LsmReader.ValidateRecord | components/bio-formats/src/loci/formats/in/ZeissLSMReader.java:718-738 | One loop body reads the neighbours' types from the array and yields the specified validated record. |
| LsmReader.PopulateStep | components/bio-formats/src/loci/formats/in/ZeissLSMReader.java:791-853 | Each Laser advances the laser counter by one, and so does each DetectionChannel for the detection counter. A DataChannel advances the data counter iff it has a name and the counter is below sizeC. An IlluminationChannel advances its counter iff it has a wavelength and the counter is below sizeC (and then writes the wavelength to that slot, its only store call), or the counter is below sizeC - 1. |
| LsmReader.PopulateAll | components/bio-formats/src/loci/formats/in/ZeissLSMReader.java:739 | Over a run of records, only acquired ones are populated. The laser and detection counters advance by the number of acquired Lasers and DetectionChannels; the other two are bounded by sizeC. |
| LsmReader.WavelengthSlotsAscending | components/bio-formats/src/loci/formats/in/ZeissLSMReader.java:843-852 | Over a run, excitation wavelengths are written to illumination slots handed out during the run, each below sizeC, in strictly ascending order. |
| LsmReader.StepWavelengthChannels | components/bio-formats/src/loci/formats/in/ZeissLSMReader.java:843-852 | One record writes a wavelength only when it is an IlluminationChannel with a wavelength and a slot below sizeC is left, and then to exactly the slot it takes. |
| LsmReader.ChannelNamesAreConsecutive | components/bio-formats/src/loci/formats/in/ZeissLSMReader.java:821-831 | Logical channel names are written to consecutive channel slots, exactly once each, from the data counter's start to its end. |
| LsmReader.LightSourcesDeclaredFirst | components/bio-formats/src/loci/formats/in/ZeissLSMReader.java:806-831 | Every light source a data channel refers to is in [0, nextLaser) and was declared by an earlier LightSourceID call, unless it predates the run. Every laser slot of the run is declared. |
| LsmReader.ChannelIndicesInRange | components/bio-formats/src/loci/formats/in/ZeissLSMReader.java:821-852 | With non-negative starting counters, every channel-indexed store call (name, light source, pinhole, wavelength) names a channel in [0, sizeC). |
| LsmReader.FloatIsZeroSamples | components/bio-formats/src/loci/formats/in/ZeissLSMReader.java:835 | The pinhole test `floatValue() != 0f` treats ±0 and doubles that round to float zero as zero. It treats the smallest double above that threshold, 1.0 and NaN as nonzero. |
| LsmReader.LsmReaderState.PopulateMetadataStore | components/bio-formats/src/loci/formats/in/ZeissLSMReader.java:791-853 | One call advances the reader's counters and appends its store calls as the populate step specifies. The split flag is untouched. |
| LsmReader.LsmReaderState.PopulateLaser | components/bio-formats/src/loci/formats/in/ZeissLSMReader.java:806-816 | The Laser branch advances the laser counter and appends the medium, type and light-source calls as the populate step specifies. |
| LsmReader.LsmReaderState.PopulateDataChannel | components/bio-formats/src/loci/formats/in/ZeissLSMReader.java:821-832 | The DataChannel branch advances the data counter and appends the light-source and name calls as the populate step specifies. |
| LsmReader.LsmReaderState.ValidateAndPopulate | components/bio-formats/src/loci/formats/in/ZeissLSMReader.java:717-740 | Validating in place, then populating each still-acquired record, leaves the array validated. Counters and log equal a populate run over the validated list. |
| LsmReader.LsmReaderState.FilterAndValidate | components/bio-formats/src/loci/formats/in/ZeissLSMReader.java:711-740 | Filtering out unacquired records, then validating and populating, yields the validated acquired list. Counters and log equal a populate run over that list, and the split flag is untouched. |
| LsmReader.LsmReaderState.ReadScanInformation | components/bio-formats/src/loci/formats/in/ZeissLSMReader.java:660-741 | Offset 0 leaves everything as the previous series left it. A fault in the walk escapes with the log untouched. Otherwise the result is the walked records filtered and then validated, and the counters restart from zero. |
| Framing.EventCount | components/bio-formats/src/loci/formats/in/ZeissLSMReader.java:632-640 | The count is the reading in the stream's byte order when that is non-negative, else the byte-swapped one, and the smaller of the two when both are non-negative. A chosen reading above 65535 gives 0; any other is taken as is. |
| Framing.EventCountSymmetric | components/bio-formats/src/loci/formats/in/ZeissLSMReader.java:636-637 | For non-negative counts the choice does not depend on byte order. A palindromic count within the limit is taken as is. |
| Framing.DescriptionLength | components/bio-formats/src/loci/formats/in/ZeissLSMReader.java:650-652 | The description length is the 32-bit `size - 16`, clamped: exactly 65536 above that, 0 below zero, the difference itself in between. |
| Framing.WrappedSizeGetsLongestDescription | components/bio-formats/src/loci/formats/in/ZeissLSMReader.java:650-652 | A size within 16 of the `int` minimum wraps in `size - 16` and gets the longest description, 65536. |
| Framing.EventAt | components/bio-formats/src/loci/formats/in/ZeissLSMReader.java:643-655 | An event is read iff 16 bytes remain. It fails with an end of file iff its description runs past the file, and with a negative seek iff start + size is negative. A read event has a description of exactly the clamped length, and the next event starts at its start + size. |
| Framing.ShortTailReadsNothing | components/bio-formats/src/loci/formats/in/ZeissLSMReader.java:642-643 | Once fewer than 16 bytes remain, the remaining iterations read nothing. |
| Framing.EventList | components/bio-formats/src/loci/formats/in/ZeissLSMReader.java:630-658 | An event list never yields more than 65535 events, nor more than the event count. A count that is 0 or below, including an over-limit count, yields no events. |
| Framing.ReadEventList | components/bio-formats/src/loci/formats/in/ZeissLSMReader.java:630-658 | The cursor code, which re-reads the count in the other byte order, yields the specified event list. |
| Framing.ShapesFrom | components/bio-formats/src/loci/formats/in/ZeissLSMReader.java:873-1119 | A successful shape list has exactly the requested count, one shape per loop iteration. |
| Framing.ShapesChained | components/bio-formats/src/loci/formats/in/ZeissLSMReader.java:873-876 | In a successful list, the first shape starts at the cursor and each next one starts `blockLength` after the previous start (the re-seek at line 1118). Every fixed shape header lies within the file. |
| Framing.ReadShapes | components/bio-formats/src/loci/formats/in/ZeissLSMReader.java:873-1119 | The cursor loop, which runs `numberOfShapes` times (none when negative), yields exactly the specified shape list, including the fault that stops it. |
| Framing.OverlayHeaderRule | components/bio-formats/src/loci/formats/in/ZeissLSMReader.java:859-873 | A header size of at most 194 yields no shapes. Otherwise a successful list holds `numberOfShapes` shapes, none when that is negative. |
| Framing.Overlays | components/bio-formats/src/loci/formats/in/ZeissLSMReader.java:859-862 | Offset 0 means no overlays, and a negative offset is a failed seek. |
| Framing.ReadOverlays | components/bio-formats/src/loci/formats/in/ZeissLSMReader.java:856-1120 | The cursor code, with its re-seek after each shape, yields the specified overlay framing. |
| Framing.UsedFiles | components/bio-formats/src/loci/formats/in/ZeissLSMReader.java:192-206 | With `noPixels`, only an MDB dataset names a file, its own. Otherwise, without an LSM file list the result is exactly the current file, and with one it starts with the LSM files and ends with the current file. |
| Framing.UsedFilesCount | components/bio-formats/src/loci/formats/in/ZeissLSMReader.java:199-205 | The current file is listed once more than among the LSM files, unless the dataset is exactly that one file. |
| LsmStream.Cursor.Seek | components/bio-formats/src/loci/formats/in/ZeissLSMReader.java:654 | A seek succeeds iff the target is not negative. A failed seek leaves the position unchanged. |
| LsmStream.SkipTo | components/bio-formats/src/loci/formats/in/ZeissLSMReader.java:1355 | `skipBytes` moves by a positive count, clamped to the end of the file, and a count that is not positive leaves the position unchanged. |

## Left out

- Opening files and directories is not part of this model. This covers the `.mdb` discovery, the `setId` recursion and `parseMDB` with `MDBParser` and `file.exists`. The model starts from a byte sequence and, where needed, from a flag saying whether the current file is an MDB file (`checkSuffix` is this parameter). `FormatTools.assertId` is not modelled.
- `TiffTools` IFD decoding and `getSamples` are not part of this model. Each descriptor is reduced to its subfile type, compression, predictor and strip offsets. `openBytes` is modelled only as its plane-index remap.
- Floating point is not modelled:
  - the pixel sizes scaled by 1e6;
  - the `lensNA` `Float` parse, whose text is kept instead;
  - the `intValue`/`floatValue` of the wavelength and time increment, kept as the double's 64-bit pattern;
  - timestamps, time deltas and exposure times;
  - overlay geometry and the type-specific shape bodies. Only the fixed 170-byte shape header, its bounds check and the re-seek are modelled, so an end of file inside a shape body is not.
- The metadata store, `addMeta`, `addToHashtable` and the `createKeys` label table are write-only sinks. Store calls of `populateMetadataStore` are recorded as an append-only event log. Other store and `addMeta` calls are not.
- The lookup-table getters are not modelled: `lut` is never assigned, so they always return null.
- The channel colour, channel name and timestamp blocks of the LSM header are not modelled, for the same floating-point and sink reasons.
- `getEffectiveSizeC()` is inherited and not shown. It is a parameter of the reconciliation.
- The stream is modelled with `RandomAccessFile` semantics:
  - a read at end of file throws and leaves the position at the end;
  - `skipBytes` clamps;
  - a negative seek throws;
  - a negative `readString` length is a negative-array-size fault.

  So the source's `getFilePointer() < 0` checks can never fire and are not modelled.
- Strings read from the file are decoded as Latin-1, one character per byte.
- ParseJavaInt: accepts ASCII digits with an optional '-' sign only; Java's `Character.digit` also accepts other Unicode decimal digits, which this model rejects.
- FixStripOffsets: a descriptor without STRIP_OFFSETS makes `TiffTools.getStripOffsets` fail, whose exact exception `TiffTools` (not part of this model) decides; it is modelled as the fault `MissingStripOffsets`.
- LsmReader.PopulateStep: the slot counters are unbounded integers and do not model 32-bit wrap-around after 2^31 records.
- Dimensions.SplitDecision has no contract of its own. What it promises is stated by `LsmReader.LsmReaderState.DecideSplitPlanes` and `Dimensions.SplitFlagLeaksAcrossSeries`.
- The byte-order flip of the event count (`in.order(!in.isLittleEndian())`) is modelled by decoding the same four bytes in both orders. The cursor's byte order never changes.

## Findings

| source | as written | input that shows it | evidently intended | confidence | as-written member | corrected member |
|---|---|---|---|---|---|---|
| components/bio-formats/src/loci/formats/in/ZeissLSMReader.java:344 | a wrapped strip offset is corrected by adding 0xFFFFFFFF | stored first offsets 0xFFFFFF00 then 0x10 (true offsets 0xFFFFFF00 and 0x100000010): the second becomes 0x10000000F | add 2^32, giving 0x100000010 | not executed | Envelope.AsWrittenOffsetOneShort | Envelope.CorrectedOffsetsRecoverTrueOffsets |
