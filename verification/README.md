# Camera, sensor and compass HAL: a verified model

This project models the parts of the NS115 Android hardware abstraction layer whose
correctness is not visible from one function at a time, and proves what they promise.
`dafny verify dfyconfig.toml` checks everything.

Source paths below are relative to the root of the repository.

## What is modelled

**The Exif writer and the JPEG it goes into** (`Basics`, `TiffFormat`, `ExifLayout`,
`ExifAttributes`, `ExifWriter`, `ExifEncoder`, `ExifRoundTrip`, `ExifTags`, `JpegSplice`).
`ExifEncoder::makeExif` keeps a table cursor and a data cursor in one output buffer, writes up
to four image file directories, and goes back for the GPS pointer and the link to the thumbnail
directory. `ExifWriter` is that buffer with its cursors, as a class over an array; its `Put`
refuses a byte that was stored before, so the ghost set `written` proves that every byte of the
block is stored exactly once. `MakeExif` is proved to produce `App1(attrs)` for the attributes
at entry, and `TiffFormat` holds a reader that knows only TIFF 6.0 (section 2) and Exif 2.2
(section 4.6), not the encoder: it takes the byte order and the place of the first directory from
the header, and `ExifTags` looks every attribute up under its number in those standards. Between
the two stands the round trip. It is false of short strings: the out-of-line overload stores an
offset whatever the size of the value, so a string of fewer than four characters is read as the
bytes of its own offset. `RoundTripIff` gives the exact condition. The splice in `pictureThreadInternal` lands on the encoder's next marker
exactly when the length of the segment fits its 16 bits.

**Pixel loops** (`Products`, `Yuyv`, `ScaleDown`, `JpegWalk`). Each loop moves its own pointers
over an array and is proved against an index formula: the word-packed YUYV to NV12 conversion
with its halving add, the subsampling that is called with source and destination the same
buffer, and the three walking pointers of the software JPEG path.

**The sensor event pipeline** (`CircularReader`, `AmiEvents`, `PlainSensors`, `LatestReadings`,
`Multiplexer`, `DeliveredReadings`, `PollEvents`, `StrandedEvent`). The ring of 2N slots refines a
queue. On top of it each driver's `readEvents` refines a stream function on the events that
arrived, whatever the sizes of the calls, including the compass driver, which can stop in the
middle of a SYN; and that stream is characterised without any state, as the latest readings of the
sensors heard of at each SYN. On top of those `pollEvents` is a run of a state machine
(`Multiplexer`) that includes the queues the kernel holds and the events that reach them, so that
every event is accounted for: still held by the kernel, read and still in a ring, or delivered;
and a call that ends with room left has delivered the latest readings at every SYN. Every loop here
is proved to terminate, though a SYN may stay in the ring.

**The camera's threads** (`CameraProtocol`, `CameraOutcomes`, `CameraRuns`). One client, the
preview thread and the capture thread as a state machine over their lock regions. A condition
variable wakes the one thread waiting on it, which then competes for the lock again. Safety holds
in every interleaving, every call has its exact outcome in every interleaving, there is no
deadlock, and previews and pictures do come about.

**Smaller parts**: the driver's buffer queue (`BufferQueue`), crop and zoom rectangles
(`CropZoom`), the compass control word and sampling delay (`AmiControl`), and the calibration
file of the daemon (`FormattedText`, `Calibration`), with `fprintf` and `fscanf` modelled for
the conversions it uses, after sections 7.19.6.1 and 7.19.6.2 of ISO/IEC 9899:1999.

## Where the code and expectation differ

Each of these is proved, with the exact condition where one exists.

- Maker, model or software strings of fewer than four characters do not survive
  (`ExifRoundTrip.RoundTripIff`).
- `makeExif` puts the comment code in front of the comment in the caller's record. The code
  starts with zeros (it is the reverse of the one of Exif 2.2, section 4.6.5; the model follows
  libcamera/ns115-usb/ExifEncoder.cpp:147), so a second picture from the same record has an
  empty comment (`ExifRoundTrip.SecondPictureLosesComment`).
- An Exif segment of 65538 bytes or more has a wrong length field, and its record cannot be read
  (`JpegSplice.SkippingLandsIff`, `PictureRoundTripIff`).
- The tags of the first directory do not ascend, as section 2 of TIFF 6.0 wants them to
  (`ExifTags.MainByTag`); and the modes of exposure and white balance are LONG values where
  section 4.6 of Exif 2.2 has SHORT ones (`ExifTags.ExifByTag`).
- U and V are exchanged in a thumbnail when half the remainder of the widths is odd
  (`ScaleDown.ChromaKeptIff`).
- The 4:2:0 walk reads past a frame of the nominal size when the height is odd
  (`JpegWalk.NominalSizeIff`).
- A sensor with a pending event on top of a non-empty ring loses its POLLIN flag until poll
  reports it again (`Multiplexer.VisitStrandsIff`); two calls from an idle state lead there
  (`StrandedEvent.ShortcutStrands`).
- Cropping the height divides before it multiplies: heights are multiples of 100, and zero for
  frames narrower than the target ratio in hundredths (`CropZoom.HeightCropExactly`).
- Aligned zoom rectangles need not be nested when a side is 288 or less
  (`CropZoom.AlignedZoomNestedIff`, `LargeFramesNest`).
- `setZoom` centres on the recorded size without the offset of the crop in force, so a zoomed
  snapshot can show what the unzoomed one crops away (`CropZoom.ZoomStaysInCropIff`).
- `startPreview` sets the zoom before the format, whose crop replaces it
  (`CropZoom.Cropper.PreviewFormat`).
- Without the driver's control word at the start, the compass does not know of sensors that are
  active (`AmiControl.AmiSensor.constructor`).
- `takePicture` raises the capture flag after it has started the thread that clears it; a fast
  capture leaves the flag up for good (`CameraProtocol.FlagCanStick`, `StuckForever`).
- When `startPreviewInternal` fails, the preview counts as running although its thread sleeps, so
  that a later `startPreview` does nothing (`CameraOutcomes.StartOutcome`).
- A new window stops a running preview and does not start it again
  (`CameraOutcomes.WindowOutcome`).
- `takePicture` is refused while the thread of the capture before, whose flag is already down, has
  not ended (`CameraOutcomes.PictureOutcome`).
- A preview started before its thread has parked for the first time can fetch frames without a
  heap (`CameraProtocol.UnparkedStartIsUnsafe`).
- Saving the calibration rounds the acceleration gains down to even numbers
  (`Calibration.RoundTripIff`), and a file cut short inside its last number is accepted with a
  wrong radius (`Calibration.TruncatedFile`).

## Model

| member | source | states |
|---|---|---|
| TiffFormat.DecodeEncode | libcamera/ns115-usb/ExifEncoder.cpp:285-359 | For each of the seven field types the encoder emits, decoding the bytes of a value by its type code, in little-endian order, gives the value back. |
| ExifLayout.ReadBlock | libcamera/ns115-usb/ExifEncoder.cpp:67-165 | Wherever a directory block lies in a TIFF block and whatever surrounds it, a reader that starts at its offset gets every entry's tag, type, count and value, and the link. |
| ExifLayout.SlotAt | libcamera/ns115-usb/ExifEncoder.cpp:321-339 | Entry k of a table holds the offset that the sizes of the values before it add up to. |
| ExifLayout.DataAt | libcamera/ns115-usb/ExifEncoder.cpp:321-359 | The bytes found at that offset of the data region are those of entry k. |
| ExifLayout.ReadBackIff | libcamera/ns115-usb/ExifEncoder.cpp:321-339 | A reader sees the value that was passed in exactly when it is inline, takes more than four bytes, or equals the leading bytes of its own offset. |
| ExifLayout.ReadBacksIff | libcamera/ns115-usb/ExifEncoder.cpp:321-359 | The same for all entries of a directory together. |
| ExifWriter.SpliceIsStore | libcamera/ns115-usb/ExifEncoder.cpp:285-359 | A buffer that differs from another only by a memcpy of some bytes is the splice of those bytes into it. |
| ExifWriter.LaidStep | libcamera/ns115-usb/ExifEncoder.cpp:321-339 | Storing the next slot at the table cursor and its value at the data cursor extends a directory laid out for k entries to k + 1, disturbing neither. |
| ExifWriter.LaidComplete | libcamera/ns115-usb/ExifEncoder.cpp:163-165 | A directory with every planned entry stored and its link in place is the block the reader needs, after whatever came before it. |
| ExifWriter.ExifWriter.EntryRoom | libcamera/ns115-usb/ExifEncoder.cpp:285-359 | The next slot and the next value lie inside the block, and at bytes not stored before. |
| ExifWriter.ExifWriter.EntryDone | libcamera/ns115-usb/ExifEncoder.cpp:285-359 | Storing both keeps the state of a directory under construction: layout, cursors, stored bytes and the untouched rest. |
| ExifWriter.ExifWriter.constructor | libcamera/ns115-usb/ExifEncoder.cpp:51-65 | Identifier and TIFF header are in place, the four bytes before them are left for later, and nothing behind them has changed. |
| ExifWriter.ExifWriter.Put | libcamera/ns115-usb/ExifEncoder.cpp:285-359 | A store goes only to bytes never stored before, and adds exactly those to the set of stored bytes. |
| ExifWriter.ExifWriter.WriteNumber | libcamera/ns115-usb/ExifEncoder.cpp:285-299 | The planned inline entry is the next one of the directory; a number stored as 32 bits is its own encoding padded with zeros. |
| ExifWriter.ExifWriter.WriteInline | libcamera/ns115-usb/ExifEncoder.cpp:301-318 | The same for up to four bytes padded in a local buffer. |
| ExifWriter.ExifWriter.WriteOutOfLine | libcamera/ns115-usb/ExifEncoder.cpp:321-359 | The planned entry is the next one of the directory and its value is the next one of the data region, inside the space reserved for the block. |
| ExifWriter.ExifWriter.StartTable | libcamera/ns115-usb/ExifEncoder.cpp:111-117 | The count equals the number of entries planned, and the data cursor moves behind the whole table. |
| ExifWriter.ExifWriter.EndTable | libcamera/ns115-usb/ExifEncoder.cpp:163-165 | With all planned entries written the finished block with link 0 is appended to what was there. |
| ExifWriter.ExifWriter.PatchNumber | libcamera/ns115-usb/ExifEncoder.cpp:168-170 | A slot that was skipped is filled, and everything else stays. |
| ExifWriter.ExifWriter.PatchLink | libcamera/ns115-usb/ExifEncoder.cpp:225-226 | The skipped link is filled, and everything else stays. |
| ExifWriter.ExifWriter.AppendData | libcamera/ns115-usb/ExifEncoder.cpp:259-261 | The thumbnail follows the last value. |
| ExifWriter.ExifWriter.PutHead | libcamera/ns115-usb/ExifEncoder.cpp:269-277 | With no hole left, every byte of [0, size) has been stored exactly once and no byte behind it was touched. |
| ExifEncoder.EmitMain | libcamera/ns115-usb/ExifEncoder.cpp:68-101 | The first directory is laid out up to its Exif pointer, with the pointer equal to the position of the Exif directory. |
| ExifEncoder.EmitExif | libcamera/ns115-usb/ExifEncoder.cpp:110-165 | All twenty Exif entries are written as planned from the attributes at entry, and the record's comment is prefixed in place. |
| ExifEncoder.PrefixComment | libcamera/ns115-usb/ExifEncoder.cpp:147-150 | The overlapping move and copy leave the code and then the terminated text at the front of the comment, and touch nothing else. |
| ExifEncoder.EmitGps | libcamera/ns115-usb/ExifEncoder.cpp:172-216 | The GPS directory, with and without a processing method, holds as many entries as its count says. |
| ExifEncoder.EmitThumb | libcamera/ns115-usb/ExifEncoder.cpp:228-261 | The thumbnail directory points to the thumbnail that follows it and gives its length. |
| ExifEncoder.MainPhase | libcamera/ns115-usb/ExifEncoder.cpp:67-111 | Exactly the GPS slot, if there is one, and the link are left unstored. |
| ExifEncoder.ExifPhase | libcamera/ns115-usb/ExifEncoder.cpp:110-165 | The Exif block is appended, and the holes in the first directory stay as they were. |
| ExifEncoder.GpsPhase | libcamera/ns115-usb/ExifEncoder.cpp:167-217 | The GPS slot is filled with the position of the GPS block, which is appended. |
| ExifEncoder.ThumbPhase | libcamera/ns115-usb/ExifEncoder.cpp:219-267 | The link is filled with the position of the thumbnail block, which is appended, or with 0 when there is none. |
| ExifEncoder.PatchedIsMainBlock | libcamera/ns115-usb/ExifEncoder.cpp:102-108 | The first directory with its skipped slot and link filled in later is the block it would have been if written in one go. |
| ExifEncoder.EmitDirectories | libcamera/ns115-usb/ExifEncoder.cpp:67-267 | Between header and marker the four blocks follow each other as if each had been written in one go, and no hole is left. |
| ExifEncoder.MakeExif | libcamera/ns115-usb/ExifEncoder.cpp:44-282 | The first `size` bytes are the APP1 segment of the attributes at entry, the rest of the buffer is unchanged, and of the record only the comment has changed. `stored` exports the set of stored bytes, [0, size); that none is stored twice is what the precondition of `ExifWriter.Put`, through which every store goes, and the contract of `ExifWriter.PutHead` say. |
| ExifRoundTrip.TiffParts | libcamera/ns115-usb/ExifEncoder.cpp:55-267 | Header, first, Exif, GPS and thumbnail blocks tile the TIFF block: each begins where the one before it ends. |
| ExifRoundTrip.HeaderReads | libcamera/ns115-usb/ExifEncoder.cpp:61-65 | The header is 49 49 2A 00 08 00 00 00: a reader takes from it the little-endian order that the numbers have, the 42 of TIFF, and the place where the first directory is. |
| ExifRoundTrip.StringFaithfulIff | libcamera/ns115-usb/ExifEncoder.cpp:82-89 | A string survives exactly when it has four characters or more, or is one character equal to its offset. |
| ExifRoundTrip.MainFaithfulIff | libcamera/ns115-usb/ExifEncoder.cpp:67-108 | The first directory reads back as passed in exactly when its three strings survive. |
| ExifRoundTrip.ReadTiff | libcamera/ns115-usb/ExifEncoder.cpp:44-282 | For every attribute record a reader that follows the pointers and the link finds all directories and the thumbnail, with only those strings in doubt. |
| ExifRoundTrip.RoundTripIff | libcamera/ns115-usb/ExifEncoder.cpp:44-282 | The reader recovers the whole record if and only if maker, model and software survive. |
| ExifRoundTrip.SecondPictureLosesComment | libcamera/ns115-usb/ExifEncoder.cpp:147-152 | Encoding a record that was encoded before stores an empty comment, whatever the first one was. |
| ExifTags.MainByTag | libcamera/ns115-usb/ExifEncoder.cpp:67-108 | A reader finds every field of the first directory under its tag number in TIFF 6.0, with the attribute's value, each string if and only if it is readable; the directory's tags never ascend. |
| ExifTags.ExifByTag | libcamera/ns115-usb/ExifEncoder.cpp:110-165 | The same for the twenty fields of the Exif directory, whose tags do ascend. |
| ExifTags.GpsByTag | libcamera/ns115-usb/ExifEncoder.cpp:167-217 | The same for the GPS directory, which is there if and only if it is enabled, and has the processing method if and only if that is not empty. |
| ExifTags.ThumbByTag | libcamera/ns115-usb/ExifEncoder.cpp:219-262 | The same for the thumbnail's directory, which is there if and only if the thumbnail is enabled and given; offset and length name the last bytes of the file, and these are the thumbnail. |
| JpegSplice.ComposePicture | libcamera/ns115-usb/NuCameraHardware.cpp:1118-1131 | The overlapping copies give FF D8, the Exif segment, and the encoder's image without its first two bytes, of length jpegSize + exifSize. |
| JpegSplice.App1Parts | libcamera/ns115-usb/NuCameraHardware.cpp:1125-1131 | Where each part of marker, length, identifier, TIFF block and image ends up in the picture. |
| JpegSplice.HeadLength | libcamera/ns115-usb/ExifEncoder.cpp:274-277 | The length field holds size - 2 modulo 65536. |
| JpegSplice.SkippingLandsIff | libcamera/ns115-usb/NuCameraHardware.cpp:1125-1131 | Skipping the segment by its length lands on the encoder's first marker after SOI if and only if the size is below 65538. |
| JpegSplice.PictureRoundTripIff | libcamera/ns115-usb/NuCameraHardware.cpp:1095-1137 | For segments of every size, the attribute record is recovered from the finished picture if and only if the three strings survive and the segment has fewer than 65538 bytes. |
| JpegSplice.ShortNotRead | libcamera/ns115-usb/ExifEncoder.cpp:219-262 | A TIFF block cut off before the end of its thumbnail is never read as the record. |
| JpegSplice.SmallWithoutThumb | libcamera/ns115-usb/ExifEncoder.cpp:67-217 | Without a thumbnail every segment fits its length field. |
| JpegSplice.PictureReads | libcamera/ns115-usb/NuCameraHardware.cpp:1125-1131 | Marker, identifier, TIFF block and the place the length field leads to, for segments of every size. |
| Yuyv.LaneOfWord | libcamera/ns115-usb/NuCameraV4L2.cpp:84-87 | A byte of a loaded 32-bit word is the byte of memory it was loaded from. |
| Yuyv.PackPicks | libcamera/ns115-usb/NuCameraV4L2.cpp:89-92 | The masks, shifts and 32-bit sums of the luma and chroma words, on bit vectors, pick exactly the even and the odd bytes of the two source words, in order, whatever the bytes. |
| Yuyv.AverageIsFloor | libcamera/ns115-usb/NuCameraV4L2.cpp:93 | The nine-bit sum without its lowest bit is half the sum of two bytes, rounded down. |
| Yuyv.LanesOfAverage | libcamera/ns115-usb/NuCameraV4L2.cpp:93-94 | Each byte stored of the result of UHADD8, which the instruction set defines lane by lane, is the average of the two bytes in that lane. |
| Yuyv.ConvertBlock | libcamera/ns115-usb/NuCameraV4L2.cpp:83-95 | One turn of the inner loop, with the packed words of lines 89-92, stores four luma bytes of each row and four averaged chroma bytes, at disjoint places, and nothing else. |
| Yuyv.BlockOfImage | libcamera/ns115-usb/NuCameraV4L2.cpp:80-97 | Those are the bytes the NV12 image has at the positions of that block. |
| Yuyv.ConvertRowPair | libcamera/ns115-usb/NuCameraV4L2.cpp:81-97 | The inner loop completes two rows of luma and one of chroma and leaves the cursors at the next pair. |
| Yuyv.Yuyv422ToYuv420 | libcamera/ns115-usb/NuCameraV4L2.cpp:72-99 | For every width divisible by 4 and every even height the destination is the NV12 image of the source: luma copied, each chroma byte the floor average over its two rows; bytes behind it are untouched, and all of them for width 0. |
| ScaleDown.LumaBounds | libcamera/ns115-usb/NuCameraV4L2.cpp:227-241 | Each luma read lies in the luma plane and at or past the write position. |
| ScaleDown.StepsAndCrops | libcamera/ns115-usb/NuCameraV4L2.cpp:227-230 | Along each axis the step is the widest with which all samples fit, and as much is cropped before them as behind them. |
| ScaleDown.ChromaBounds | libcamera/ns115-usb/NuCameraV4L2.cpp:242-258 | Each chroma read lies in the frame and at or past the write position. |
| ScaleDown.DownLuma | libcamera/ns115-usb/NuCameraV4L2.cpp:227-241 | Pixel (y, x) of the result is the source pixel at the centred, stepped position. |
| ScaleDown.DownChroma | libcamera/ns115-usb/NuCameraV4L2.cpp:242-258 | Byte c of chroma row r of the result is the source byte of the stepped pair. |
| ScaleDown.ChromaKeptIff | libcamera/ns115-usb/NuCameraV4L2.cpp:243-255 | U comes from U and V from V if and only if the horizontal crop offset is even. |
| ScaleDown.ChromaSwapped | libcamera/ns115-usb/NuCameraV4L2.cpp:229-254 | From six columns to four they are exchanged. |
| ScaleDown.ScalingDown420SP | libcamera/ns115-usb/NuCameraV4L2.cpp:219-259 | Whether destination and source are two arrays or one, the result is the same function of the source at entry, for all even sizes that do not grow. |
| ScaleDown.ScaleLuma | libcamera/ns115-usb/NuCameraV4L2.cpp:232-241 | While the luma loop runs, everything before the write position is final and everything from it on is still the source. |
| ScaleDown.CopyPair | libcamera/ns115-usb/NuCameraV4L2.cpp:252-254 | The same across the two stores of a pair, although the second byte is read after the first is stored. |
| ScaleDown.ScaleChroma | libcamera/ns115-usb/NuCameraV4L2.cpp:242-258 | The same for the chroma loop. |
| JpegWalk.ReadsInside | libcamera/ns115-usb/JpegCompressor.cpp:81-119 | All three samples of every pixel lie in the frame, for the four input formats. |
| JpegWalk.SamplesOf | libcamera/ns115-usb/JpegCompressor.cpp:151-195 | Each format's samples are where it keeps them: pairs U V or V U behind the luma plane, one for two by two pixels, or four bytes Y U Y V or Y V Y U for two pixels. |
| JpegWalk.NominalSizeIff | libcamera/ns115-usb/JpegCompressor.cpp:110-119 | A 4:2:0 frame of one and a half bytes a pixel is large enough if and only if its height is even. |
| JpegWalk.ColumnStep | libcamera/ns115-usb/JpegCompressor.cpp:91-108 | The pointer increments of one turn agree with the closed index formulas. |
| JpegWalk.RowStep | libcamera/ns115-usb/JpegCompressor.cpp:110-119 | The end of a row is the start of the next, except that 4:2:0 chroma must be rewound after an even row. |
| JpegWalk.WalkRow | libcamera/ns115-usb/JpegCompressor.cpp:87-108 | One scanline fills the line buffer exactly and leaves the pointers where the formulas say. |
| JpegWalk.ScanlineAt | libcamera/ns115-usb/JpegCompressor.cpp:91-101 | Pixel x of a scanline stands at 3x and is converted from its own luma and its pair's chroma. |
| JpegWalk.CompressRawImage | libcamera/ns115-usb/JpegCompressor.cpp:78-122 | For every even width and any height, the rows handed to the JPEG library are the scanlines of the closed formula. |
| CircularReader.InputEventCircularReader.constructor | libsensors/InputEventReader.cpp:35-42 | An empty queue of the given capacity. |
| CircularReader.InputEventCircularReader.Fill | libsensors/InputEventReader.cpp:49-72 | The events read join the unread ones in order, no slot past 2N is written, no unread event is overwritten by the overflow copy; an error or a torn read takes nothing. |
| CircularReader.InputEventCircularReader.Accept | libsensors/InputEventReader.cpp:60-68 | Events stored at the head become the youngest unread ones, also when the head passes the capacity. |
| CircularReader.InputEventCircularReader.Advance | libsensors/InputEventReader.cpp:61-67 | Head, free space and buffer after the pointer arithmetic, with and without overflow. |
| CircularReader.OldKept | libsensors/InputEventReader.cpp:63-67 | The overflow copy overwrites no unread event. |
| CircularReader.NewPlaced | libsensors/InputEventReader.cpp:53-67 | Each new event ends up in the slot behind the unread ones, wherever the head passed the capacity. |
| CircularReader.InputEventCircularReader.CopyBack | libsensors/InputEventReader.cpp:63-67 | The overflow lands at the front and nothing else moves. |
| CircularReader.InputEventCircularReader.ReadEvent | libsensors/InputEventReader.cpp:74-79 | An event is available if and only if one was received and not consumed, and it is the oldest such. |
| CircularReader.InputEventCircularReader.Next | libsensors/InputEventReader.cpp:81-88 | Exactly the oldest event is consumed. |
| AmiEvents.SynClears | libsensors/AmiSensor.cpp:352-367 | A SYN with enough room empties the pending mask, so its event is consumed. |
| AmiEvents.SynSkips | libsensors/AmiSensor.cpp:354-364 | Resuming an interrupted SYN from sensor 0 is the same as resuming it where it stopped. |
| AmiEvents.EmitConcat | libsensors/AmiSensor.cpp:347-373 | The stream of a queue in two parts is the stream of the first followed by that of the second from the state reached. |
| AmiEvents.AmiReader.EmitPending | libsensors/AmiSensor.cpp:352-364 | What a SYN emits in limited room followed by what it still owes is what it emits in one go; it stops with sensors pending only when the room is used up. |
| AmiEvents.AmiReader.Synchronise | libsensors/AmiSensor.cpp:352-367 | A SYN branch keeps the balance of delivered and owed events, and either consumes its event or uses up the room, so the loop ends. |
| AmiEvents.AmiReader.constructor | libsensors/AmiSensor.cpp:37-66 | Nothing pending and an empty ring, with the sensors and readings found. |
| AmiEvents.AmiReader.ReadEvents | libsensors/AmiSensor.cpp:333-377 | The call terminates, returns at most `count` events, and these followed by what the new state will emit for the events left are what the old state would emit for all of them; room left over means an empty ring. |
| AmiEvents.CallTakesPrefix | libsensors/AmiSensor.cpp:333-377 | A call returns the first `count` events of an unbounded one, or all of them. |
| AmiEvents.ChunkingInvariance | libsensors/AmiSensor.cpp:333-377 | Over any sequence of calls with any counts and any arrivals between them, the events returned followed by those still to come are the output of one unbounded call, and the final state is the same. |
| AmiEvents.DrainedRunsAgree | libsensors/AmiSensor.cpp:333-377 | Any two sequences of calls over the same arrivals that drain the ring return the same events and end in the same state. |
| PlainSensors.PlainSensor.SetInitialState | libsensors/LightSensor.cpp:63-73 | The current value, looked up and clamped, is pending, and nothing else has changed. |
| PlainSensors.LuxAscends | libsensors/LightSensor.cpp:152-164 | The eight steps from 10 to 10240 lux ascend with the index, and an index out of range counts as the brightest. |
| PlainSensors.PlainSensor.constructor | libsensors/KionixSensor.cpp:35-64 | An empty ring and no event pending, with the readings found. |
| PlainSensors.PlainSensor.LightSensor | libsensors/LightSensor.cpp:33-58 | An event is pending at the start if and only if the sensor was enabled and its value could be read. |
| PlainSensors.PlainSensor.ReadEvents | libsensors/KionixSensor.cpp:140-196 | Without a pending event, the conservation law of the compass reader; with one, exactly that event if the sensor is enabled, and the ring is left alone. |
| PlainSensors.DrainTakesPrefix | libsensors/LightSensor.cpp:105-150 | A call without a pending event returns the first `count` events of the stream, or all of them. |
| LatestReadings.StreamIsLatest | libsensors/AmiSensor.cpp:347-447 | From a state with nothing pending, the compass driver's output for any events is, SYN by SYN and in sensor order, one report for each enabled sensor heard of since the SYN before, stamped with the SYN's time and holding the last value received on each of its axes. |
| LatestReadings.PrefixReports | libsensors/AmiSensor.cpp:347-447 | The same after every prefix of the events, where the driver's state holds the latest readings and its mask the sensors heard of. |
| LatestReadings.AbsTracks | libsensors/AmiSensor.cpp:379-447 | An EV_ABS event with one of the eleven codes changes the one reading it stands for, and no other. |
| LatestReadings.StreamIsLatestOf | libsensors/KionixSensor.cpp:159-193 | An enabled accelerometer or light sensor reports at every SYN the last value of each axis, with the axes of a device mounted at 270 degrees exchanged and one negated, and without the light sensor's readings of -1; a disabled one reports nothing. |
| LatestReadings.OneReading | libsensors/AmiSensor.cpp:379-473 | In the numbers of the input subsystem: which of the eleven event codes sets which reading of which sensor, and how the chip's four grades of accuracy are translated. |
| LatestReadings.OneReadingOf | libsensors/KionixSensor.cpp:159-180 | The same for the accelerometer, mounted either way, and for the light sensor. |
| Multiplexer.ConservedStep | libsensors/nusensors.cpp:181-193 | If delivered events followed by the remaining stream make up the stream for all that was read, they still do after another readEvents of either kind of driver. |
| Multiplexer.AccountedStep | libsensors/nusensors.cpp:181-193 | The same for a driver that had an event pending at first: that event comes before all others, with the time of the driver's first visit, and nothing is lost for it. |
| Multiplexer.VisitStrandsIff | libsensors/nusensors.cpp:183-188 | A visit leaves events in the ring without POLLIN if and only if it finds an event pending on top of a non-empty ring, and `count` exceeds one or the sensor is disabled. |
| Multiplexer.OwnVisitKeeps | libsensors/nusensors.cpp:181-193 | The visited driver reads exactly the oldest events the kernel holds for it, as many as its ring has room for, or none when an event is pending; what it has read and what the kernel still holds stay together what reached it, and what it has read stays accounted for. |
| Multiplexer.OtherVisitKeeps | libsensors/nusensors.cpp:181-193 | A visit of another driver changes none of that, and adds nothing to what this one has delivered. |
| Multiplexer.RunKeeps | libsensors/nusensors.cpp:174-216 | In every state of every call, from any state, and for each driver: what the kernel held and what has reached the device since is what the driver has read followed by what the kernel still holds; and the driver has delivered its pending event, if any, with the clock of its first visit, and then a prefix of the stream for its unread events and all it has read, and its state owes exactly the rest. |
| Multiplexer.RunFits | libsensors/nusensors.cpp:174-216 | What is delivered and the room left are together the room at first; poll is not called again without room, and the result is the number delivered unless poll failed with room left. |
| Multiplexer.RunSteady | libsensors/nusensors.cpp:178-214 | A driver that is flagged for its unread events and has none pending on top of them at entry is so in every state, and when its turn is over with room left its ring is empty, so poll is never called over its unread events. |
| Multiplexer.RunFlags | libsensors/nusensors.cpp:183-188 | In every state of every call a driver's flag is the last poll's answer until its turn comes, and down when its turn is over with room left. |
| Multiplexer.EverythingDelivered | libsensors/nusensors.cpp:174-216 | When a call ends with room left, such a driver has delivered exactly what it owed for its unread events and everything it has read; when the kernel then holds nothing for it, that is everything the kernel held or that has reached the device, in order and once each. |
| DeliveredReadings.OwedIsReadings | libsensors/nusensors.cpp:184-184 | What a driver owes is its pending event and then the latest readings at every SYN, with no reference to its state, if no SYN of the compass driver was interrupted. |
| DeliveredReadings.CallDelivers | libsensors/nusensors.cpp:174-216 | When a call ends with room left, a driver that was steady at first has delivered exactly that for its unread events and all it has read, which is everything when the kernel then holds nothing for it. |
| StrandedEvent.FirstIsVisited | libsensors/LightSensor.cpp:117-148 | With two SYN events waiting and room for one, the light sensor reads both, delivers the first, and keeps its flag. |
| StrandedEvent.ShortcutStrands | libsensors/LightSensor.cpp:82-115 | From an idle state, a call with room for one event, the light sensor disabled and enabled again, and a second call with room for eight end with an event in the ring, no flag, nothing pending, and nothing held by the kernel. |
| PollEvents.PollContext.CallDriver | libsensors/nusensors.cpp:184-184 | Whichever driver is called, its law holds for what its read returned, and the other three do not change. |
| PollEvents.PollContext.ReadSensor | libsensors/nusensors.cpp:182-184 | What arrives is exactly the oldest events the kernel holds, as many as the ring has room for, or none when an event is pending; they leave the kernel's queue, and the other queues stay. |
| PollEvents.PollContext.constructor | libsensors/nusensors.cpp:114-145 | The KXTJ9 driver is an accelerometer mounted as told, and four drivers of the right kinds stand at their indexes for good, with empty rings and no flags, the light sensor with an event pending if it was enabled; all of them steady. |
| PollEvents.PollContext.Placed | libsensors/nusensors.cpp:50-145 | At 0 the KXTJ9 accelerometer, at 1 the light sensor, at 2 the compass and at 3 the other accelerometer, for good. |
| PollEvents.PollContext.Visit | libsensors/nusensors.cpp:182-192 | The new state is that of the machine's visit: prefix read, events tagged and appended, room reduced, and the flag cleared exactly when fewer than `count` came back. |
| PollEvents.PollContext.Sweep | libsensors/nusensors.cpp:180-193 | The for loop extends the run of the machine from the first driver's turn to the poll, skipping exactly the drivers that are not flagged and have no event pending, and stopping when the room is used up. |
| PollEvents.PollContext.Poll | libsensors/nusensors.cpp:195-214 | The poll and the loop's condition are the machine's poll step: no poll without room, its error as the result, and another round exactly when it is positive. |
| PollEvents.PollContext.PollEvents | libsensors/nusensors.cpp:174-216 | The call is a run of the machine from the state at entry to the state at return, with the room, data and result it returns. So from any state, for every driver: no event that the kernel held or that reached the device is lost, repeated or reordered (`Multiplexer.RunKeeps`), and a steady driver stays so, and when the call ends with room left has delivered its pending event and then its latest readings at every SYN (`DeliveredReadings.CallDelivers`). A call that has run out of rounds is still waiting. |
| AmiControl.AmiSensor.constructor | libsensors/AmiSensor.cpp:37-130 | Counters, mask, driver word and device agree from the start if and only if the control word could be read or the driver was doing nothing. |
| AmiControl.AmiSensor.Enable | libsensors/AmiSensor.cpp:135-239 | An unknown handle changes nothing; otherwise the state is that of the control function, and the result is 0 if and only if nothing was asked for or both ioctls succeeded. |
| AmiControl.Handles | libsensors/AmiSensor.cpp:144-154 | The handles 0, 2 and 3 stand for accelerometer, magnetic field and orientation, and no other is known. |
| AmiControl.AmiSensor.Count | libsensors/AmiSensor.cpp:163-185 | One counter follows the request, the device is open, and nothing else has changed. |
| AmiControl.AmiSensor.Activate | libsensors/AmiSensor.cpp:187-233 | The driver and the mask change only if both ioctls succeed; the delays return to their default whenever the first does and no sensor is left. |
| AmiControl.AmiSensor.ActiveBits | libsensors/AmiSensor.cpp:194-207 | The driver's word with exactly its three own bits as the counters say. |
| AmiControl.AmiSensor.SetDelay | libsensors/AmiSensor.cpp:241-270 | Bad handles and negative delays change nothing; otherwise the delay is recorded and the update's result returned. |
| AmiControl.AmiSensor.UpdateDelay | libsensors/AmiSensor.cpp:268-319 | The loop finds the least delay of an enabled sensor, and the driver's delay follows it only if both ioctls succeed; `UpdateDelayIs` says what it is then. |
| AmiControl.EnableAgreesIff | libsensors/AmiSensor.cpp:135-239 | Agreement of counters, mask, driver and device survives enable if and only if it changes nothing or both its ioctls succeed. |
| AmiControl.RunAgrees | libsensors/AmiSensor.cpp:135-319 | Over every run of succeeding calls: counter i is positive exactly when bit i of the mask and of the driver word is set, and the device is open exactly when the mask is not empty; the driver's other bits stay as they were. |
| AmiControl.UpdateMakesDelayOk | libsensors/AmiSensor.cpp:272-319 | After an update the delay is at least 5 ms and at most the larger of 5 and the request of every enabled sensor, even for requests that do not fit an int. |
| AmiControl.RunDelayOk | libsensors/AmiSensor.cpp:135-319 | Over every run that holds once any call has had an effect. |
| AmiControl.DelayNeverGrows | libsensors/AmiSensor.cpp:268-319 | From a delay of at least 5 ms it never grows in a run that does not switch the last sensor off. |
| AmiControl.LeastIs | libsensors/AmiSensor.cpp:279-287 | The loop over the enabled sensors gives the request of one that asks for no more than any other, converted to an int of milliseconds, and nothing when none is enabled. |
| AmiControl.LeastIsLeast | libsensors/AmiSensor.cpp:279-296 | As long as every request fits an int, that is at most every enabled sensor's request in milliseconds. |
| AmiControl.ToInt32Wraps | libsensors/AmiSensor.cpp:296-296 | The conversion keeps the low 32 bits. |
| AmiControl.UpdateDelayIs | libsensors/AmiSensor.cpp:268-319 | If the delay was the least of some requests, down to 5 ms, or 0 for none, then after a successful update it is the least of those and the least that is now asked for. |
| AmiControl.UpdateReports | libsensors/AmiSensor.cpp:268-319 | An update in which an ioctl fails changes nothing, and says so unless no sensor asks for anything. |
| AmiControl.ResetForgets | libsensors/AmiSensor.cpp:210-216 | When the last sensor is switched off, the driver and every request go back to 200 ms, and the device is closed. |
| AmiControl.RunDelayIs | libsensors/AmiSensor.cpp:135-319 | Over every run of succeeding calls, from any delay: the driver's delay is exactly the least of what it started with and all that enabled sensors have asked for since the last reset, but no less than 5 ms. |
| CameraProtocol.RunKeepsInv | libcamera/ns115-usb/NuCameraHardware.cpp:586-863 | The invariant of lock, handshake, heaps and capture holds in every state of every interleaving. |
| CameraProtocol.Safety | libcamera/ns115-usb/NuCameraHardware.cpp:744-863 | In every state: stopPreviewInternal has returned only to a parked thread and a stopped stream; running and deferred means parked; previewThread has a live heap; no preview runs, streams or starts during a snapshot; past a successful wait no capture is between its first command and endSnapshot; mRawHeap is there when used; the two threads are never both asleep. |
| CameraProtocol.StopProgresses | libcamera/ns115-usb/NuCameraHardware.cpp:586-605 | While the client waits for the preview to stop, the preview thread can always step, each of its steps brings it nearer to the signal or is the signal, and no other thread interferes. |
| CameraProtocol.StopWaitIsShort | libcamera/ns115-usb/NuCameraHardware.cpp:586-605 | In any run in which the client goes on waiting for the preview to stop, the preview thread moves at most five times; it can always move, and a sixth move wakes the client. |
| CameraProtocol.UnparkedStartIsUnsafe | libcamera/ns115-usb/NuCameraHardware.cpp:776-781 | Without a first park there is an interleaving that enters previewThread with a null heap. |
| CameraProtocol.StuckStays | libcamera/ns115-usb/NuCameraHardware.cpp:1205-1219 | With the flag up and no capture left to clear it, every step leaves it so, and every wait times out. |
| CameraProtocol.StuckForever | libcamera/ns115-usb/NuCameraHardware.cpp:1205-1219 | In every state of every continuation the flag is up, and a wait that ends has timed out. |
| CameraProtocol.StuckArisesIff | libcamera/ns115-usb/NuCameraHardware.cpp:1252-1254 | From a reachable state that is not stuck a step leads to a stuck one if and only if it raises the flag for a capture that has already cleared it. |
| CameraProtocol.FlagCanStick | libcamera/ns115-usb/NuCameraHardware.cpp:1248-1254 | There is a run from the idle camera into such a state. |
| CameraOutcomes.StartOutcome | libcamera/ns115-usb/NuCameraHardware.cpp:744-817 | In every interleaving a startPreview that holds the lock ends so: with a preview running nothing changes; otherwise it is deferred if and only if there is no window; and with a window the thread is woken to a running stream and a live heap if and only if startPreviewInternal succeeded, and else sleeps on while the preview counts as running. |
| CameraOutcomes.WindowOutcome | libcamera/ns115-usb/NuCameraHardware.cpp:484-534 | In every interleaving setPreviewWindow starts a deferred preview if startPreviewInternal succeeds and leaves it deferred otherwise, and stops a running one without starting it again. |
| CameraOutcomes.StopOutcome | libcamera/ns115-usb/NuCameraHardware.cpp:818-859 | When stopPreview returns, also inside takePicture, nothing runs or streams, the thread sleeps and the heap is gone. |
| CameraOutcomes.PictureOutcome | libcamera/ns115-usb/NuCameraHardware.cpp:1236-1256 | Past its wait takePicture has started a capture with a heap for the picture and raised the flag, unless the thread of the capture before has not ended. |
| CameraRuns.NeverBlocked | libcamera/ns115-usb/NuCameraHardware.cpp:744-863 | In every reachable state the client can move, unless it waits for the lock or for the preview to stop, and then the preview thread can. |
| CameraRuns.PreviewCycle | libcamera/ns115-usb/NuCameraHardware.cpp:586-859 | There is a run in which a preview comes up, fetches a frame from the running stream, and is stopped, back where it started. |
| CameraRuns.PictureCycle | libcamera/ns115-usb/NuCameraHardware.cpp:1221-1257 | There is a run in which a picture is taken under the flag, back where it started. |
| CropZoom.Cropper.SetCrop | libcamera/ns115-usb/NuCameraV4L2.cpp:420-455 | The driver is told the aligned rectangle. |
| CropZoom.Cropper.SetFormat | libcamera/ns115-usb/NuCameraV4L2.cpp:515-586 | For an unsupported size the driver is told the aligned aspect crop, and the size before alignment is kept for the zoom. |
| CropZoom.Cropper.SetZoom | libcamera/ns115-usb/NuCameraV4L2.cpp:3234-3275 | Which levels are refused, that level 0 leaves the crop alone, and which frame is zoomed otherwise. |
| CropZoom.AspectCropInside | libcamera/ns115-usb/NuCameraV4L2.cpp:545-578 | The crop lies in the base frame, keeps one of its sides, and is centred to within a pixel. |
| CropZoom.WidthCropIsLargest | libcamera/ns115-usb/NuCameraV4L2.cpp:557-561 | A cropped width is the largest whose ratio does not exceed the target's. |
| CropZoom.HeightCropExactly | libcamera/ns115-usb/NuCameraV4L2.cpp:568-572 | A cropped height is a multiple of 100 less than 100 below the exact one, and empty if and only if the base width is below the target ratio. |
| CropZoom.AlignedIsLargest | libcamera/ns115-usb/NuCameraV4L2.cpp:426-444 | Alignment gives the largest multiples of 8 not above the sides, inside the rectangle. |
| CropZoom.FormatCropInside | libcamera/ns115-usb/NuCameraV4L2.cpp:515-586 | Whatever is asked for, the driver's rectangle lies in the sensor's frame. |
| CropZoom.ZoomAntitone | libcamera/ns115-usb/NuCameraV4L2.cpp:3263-3265 | A higher level never gives a larger side. |
| CropZoom.ZoomNested | libcamera/ns115-usb/NuCameraV4L2.cpp:3263-3267 | On a fixed base, the unaligned rectangles that the formula gives are nested by level and centred to within a pixel; level 10 is exactly half of each side, rounded down. At level 0 the formula gives the whole base, but setZoom does not set it. |
| CropZoom.AlignedZoomNotNested | libcamera/ns115-usb/NuCameraV4L2.cpp:3263-3269 | Levels 9 and 10 are not nested on a frame 320 by 240, nor along a side of 288. |
| CropZoom.AlignedZoomNestedIff | libcamera/ns115-usb/NuCameraV4L2.cpp:3263-3269 | Aligned rectangles of levels k <= l are nested if and only if along each axis the side n lies in none of the intervals 8m(10+l) <= 10n < 8(m+1)(10+k), or both levels give it one offset o, that is, 10n lies in [(n-2o-1)(10+j), (n-2o+1)(10+j)) for j = k and j = l. |
| CropZoom.OffsetIsIff | libcamera/ns115-usb/NuCameraV4L2.cpp:3263-3267 | Those intervals say exactly which offset the formula gives. |
| CropZoom.SameStepIff | libcamera/ns115-usb/NuCameraV4L2.cpp:3263-3266 | Those intervals hold exactly the sides that both levels take to the same multiple of 8. |
| CropZoom.StepBound | libcamera/ns115-usb/NuCameraV4L2.cpp:3263-3265 | There are fewer than 10+k of them, and none beyond 8(10+k)(10+k)/10. |
| CropZoom.LargeFramesNest | libcamera/ns115-usb/NuCameraV4L2.cpp:3263-3269 | With both sides above 288 the aligned rectangles of all levels are nested. |
| CropZoom.Cropper.SnapshotFormat | libcamera/ns115-usb/NuCameraV4L2.cpp:1826-1832 | After a format and a zoom above level 0 the driver holds the zoom of the recorded size; at level 0 it holds the format's crop. |
| CropZoom.Cropper.PreviewFormat | libcamera/ns115-usb/NuCameraV4L2.cpp:1490-1501 | After a zoom and a format for an unsupported size the driver holds the format's crop whatever the level, which stays recorded. |
| CropZoom.ZoomStaysInCropIff | libcamera/ns115-usb/NuCameraV4L2.cpp:557-585 | When the ratios differ, the zoom after the format lies in the format's crop if and only if along each axis, with side n and offset o of the crop, 10n < (n-2o+1)(10+l), which says that the zoom's offset is not below o, and the side lies in none of the intervals 8m(10+l) <= 10n < 80(m+1), or the zoom's offset is o. |
| CropZoom.LargeAxisStaysInIff | libcamera/ns115-usb/NuCameraV4L2.cpp:3263-3267 | For sides of at least 80 only the offsets count: inside if and only if 10n < (n-2o+1)(10+l), that is, the crop's offset is at most half of what the zoom takes off. |
| CropZoom.ZoomLeavesCrop | libcamera/ns115-usb/NuCameraV4L2.cpp:1826-1832 | For 1280 by 720 from a sensor of 1600 by 1200, level 1 leaves the crop. |
| CropZoom.EqualRatioStaysIff | libcamera/ns115-usb/NuCameraV4L2.cpp:545-556 | When the ratios are equal, the zoom of the target size lies in the base frame if and only if along each axis: a target side not above the base side is not aligned to the same multiple of 8 as both the base and its zoom at a positive offset, or, for a target side n above it, with the aligned base side b and the m for which 8m(10+l) <= 10n < 8(m+1)(10+l), both 8m <= b and (n-2(b-8m)-1)(10+l) <= 10n. |
| CropZoom.LargerTargetIff | libcamera/ns115-usb/NuCameraV4L2.cpp:3263-3269 | These two inequalities hold exactly when the far edge of the aligned zoom is not beyond b. |
| CropZoom.LargerTargetBounds | libcamera/ns115-usb/NuCameraV4L2.cpp:3263-3269 | The zoom of a side n ends by b whenever n(20+l) <= 2(10+l)b, and never when n(20+l) >= 2(10+l)(b+9). |
| CropZoom.EmptyCropIsLeft | libcamera/ns115-usb/NuCameraV4L2.cpp:568-573 | An empty crop is not used as the zoom's base, and no zoom of at least 8 by 8 lies in it. |
| BufferQueue.Driver.Dequeue | libcamera/ns115-usb/NuCameraV4L2.cpp:1696-1702 | The oldest filled buffer leaves the front of the rotation. |
| BufferQueue.Driver.Capture | libcamera/ns115-usb/NuCameraV4L2.cpp:1704-1708 | Of n frames the first min(n, free) fill the free buffers in their order, the rest are lost, and the rotation does not change. |
| BufferQueue.Driver.Enqueue | libcamera/ns115-usb/NuCameraV4L2.cpp:1714-1724 | A buffer given back joins the end of the rotation. |
| BufferQueue.Driver.GetPreviewFrame | libcamera/ns115-usb/NuCameraV4L2.cpp:1696-1727 | If and only if a second frame is ready when the first has been taken (two were filled, or the sensor has filled a free buffer since), the first is dropped and the second returned; otherwise the first is. Done queue followed by free queue turns by two places or by one, stays a rotation of the initial order, the driver owns every buffer again, and frames are returned in capture order. |
| BufferQueue.Driver.TakeFrame | libcamera/ns115-usb/NuCameraV4L2.cpp:1697-1719 | The same up to the buffer in hand. |
| BufferQueue.Driver.DropForNext | libcamera/ns115-usb/NuCameraV4L2.cpp:1708-1718 | The newer frame's buffer is taken and the older one given back behind all others. |
| BufferQueue.RotateOnce | libcamera/ns115-usb/NuCameraV4L2.cpp:1708-1724 | Taking the head of a rotation and giving it back is a rotation by one more place, for any number of buffers. |
| FormattedText.ValueOfDigits | ami_daemon/ami_daemon.c:133-146 | The value of the decimal digits of a number is the number. |
| FormattedText.DigitsLength | ami_daemon/ami_daemon.c:136-146 | A number has at most k digits if and only if it is below ten to the power k. |
| FormattedText.ScanPrintIff | ami_daemon/ami_daemon.c:176-184 | For every format whose numbers are separated by white space, scanning what was printed gives all the numbers back if and only if each fits its width, sign included. |
| FormattedText.CutPrint | ami_daemon/ami_daemon.c:176-184 | Of a print cut short at any place, fewer numbers are converted, unless a digit of the last is left; then all are, the last with the digits left of it. |
| Calibration.ConfigFile.WriteFileParameter | ami_daemon/ami_daemon.c:121-152 | The file's text is replaced by that of the parameters, or left alone when it cannot be opened. |
| Calibration.FileLayout | ami_daemon/ami_daemon.c:135-146 | The file character by character: 989240 on a line, then the halved acceleration gains, the offsets less 2048 and the rest as it is, six characters a number and three numbers a line, and the radius right behind them. |
| Calibration.AmiParameter.Assign | ami_daemon/ami_daemon.c:193-214 | Each of the 21 numbers reaches its own field, converted to the field's width. |
| Calibration.ConfigFile.ReadFileParameter | ami_daemon/ami_daemon.c:154-218 | The result and the parameters are those of `Load`, with all four results and the stale code of a failed conversion. |
| Calibration.RoundTripIff | ami_daemon/ami_daemon.c:121-218 | For all parameters of the declared widths, reading back what was written succeeds and changes nothing but odd acceleration gains, so it is the identity if and only if these are even, and a second round trip always is. |
| Calibration.TruncatedFile | ami_daemon/ami_daemon.c:168-191 | A file cut short at any place is refused with the parameters untouched, unless a digit of the radius is left; then it is accepted, with every other field right and a radius too small. |

## Left out

- ExifWriter.ExifWriter.Put: bytes are stored one by one; the byte order of a memcpy of an int is that of the little-endian target.
- ExifEncoder.MakeExif: split into one method per directory and per part of one; the record's strings are assumed to hold their terminators and the comment buffer room for its prefix; filling the record (APEX macros, dates, positions) is not modelled.
- JpegSplice.ComposePicture: allocation of the buffer is assumed to succeed; the encoder's image is any sequence of at least two bytes.
- JpegWalk.CompressRawImage: the colour formula with its effects is a parameter, and rows go to a sequence in place of libjpeg.
- CircularReader.InputEventCircularReader.Fill: what `read` does is a parameter that may fail, tear an event, or deliver any whole number of events that fits.
- AmiEvents.AmiReader.ReadEvents: readings are not converted to float units; the mask is a set of bits; the mask of enabled sensors is fixed during a call.
- PlainSensors.PlainSensor.ReadEvents: one class with a kind stands for both drivers; unit conversion is left out.
- PollEvents.PollContext.PollEvents: reads are assumed not to fail or to tear an event, since the count arithmetic does not handle negative results; events are listed with the sweep they reach their device before, also those that end the poll before it; the kernel's queues are unbounded; the wake pipe is left out, and the second accelerometer driver is modelled as another reader of the first one's kind. A failing poll returns its error even when events were delivered; the contract says so.
- AmiControl.AmiSensor.Enable: the device is an open flag; how calibration values are read while starting is left out. The class shares only the mask of enabled sensors with AmiEvents.AmiReader.
- CameraProtocol.Safety: one client; no spurious wakeups; `release`, `cancelPicture`, thread start-up before the first park and the recording thread are left out; mRawHeap's allocation is assumed to succeed. Failing allocations and driver calls of the preview are included.
- CameraProtocol.StopProgresses: each step is shown to be possible and to make progress; fairness of the scheduler is not modelled.
- CropZoom.Cropper.SetFormat: float ratios are integer quotients in hundredths; the VIDIOC ioctls succeed.
- BufferQueue.Driver.GetPreviewFrame: restarting the stream, failing ioctls and the USB branch (libcamera/ns115-usb/NuCameraV4L2.cpp:1678-1695) are left out, apart from the conversion in Yuyv.
- Calibration.ConfigFile.ReadFileParameter: a scanned number that does not fit its type is undefined in C and wraps around here; none is ever written. The fields of AMI_PARAMETER that the file does not hold are not modelled.
- Colour conversion and effects (libcamera/ns115-usb/Converters.h, Effect.h): finite domains of independent pixels.
- `setParameters`, the simple V4L2 setters, liblights and gal: no state worth an invariant.
- libjpeg, the VPU encoder, the compass middleware, rendering and the Thread library are not part of this model.
