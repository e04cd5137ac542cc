# Verified models of the robot camera programs

This project models the parts of the camera programs that carry the most logic, and proves what they are for.
Check it with `dafny verify dfyconfig.toml` (Dafny 4.11).

**Colour blobs.** `detect_color_blobs` finds the 4-connected regions of a YUV420 image in one pass. It thresholds
chroma and luma into runs (`RowRuns`), sweeps two consecutive rows (`Sweep`) and merges overlapping runs in a
disjoint-set forest whose statistics live in a packed list of roots (`BlobLists`, class `BlobList`). `Forest` holds the
invariant of the two arrays and the four changes made to them, `Partition` the partition that a set of unions is meant
to produce, `UnionLog` what the order of the unions decides (room, and the bottom row), `BlobStats` the rolling
statistics, `Pixels` the components of a set of pixels, `LateRuns` what a mask decides about room and bottom rows,
`LostRuns` what a crowded mask loses, and `Detect` puts all of it together: `Detect.DetectColorBlobs` is the main theorem.
`MaxGuard` and `MaxGuardPass` are the list and the pass with line 95 comparing with `max_y`, and `Examples` holds two
small images. The labels, classes and unions that the invariant talks about are ghost fields; every real field and array
is updated as in the C code.

**Frame queue and camera pipeline.** `Frame_Queue` is a ring buffer with a mutex and two condition variables. Each
method of `FrameQueues.FrameQueue` is one critical section and refines a step of a bounded FIFO; `CamPipeline` runs
the capture and display threads over two such queues and a driver that is a FIFO of buffers, in every interleaving.

**Huffman decoding.** `Huffman` builds the tables of a DHT segment and looks codes up (ITU-T T.81, Annex C and
section F.2.2.3); `BlockCoding` decodes blocks of coefficients from symbols and shows that this inverts the coder of
sections F.1.2.1 and F.1.2.2, for single blocks and for sequences with DC prediction.

**Clock.** The offset estimator of the UDP connection, with an error bound for the converted time.

**TIFF tags.** The writer in C and the reader in Python of the tags in a frame's JPEG header (TIFF 6.0, section 2).

`Words`, `Options`, `Folds` and `Reach` are arithmetic, optional values, sums over finite sets, and reachability.

## Where the code differs from its documentation

The models follow the code.

- The header of `detect_color_blobs` promises every pixel within the thresholds. Line 168 ends a chroma run one column
  early, so the last, odd column of every chroma run is left out; `Detect.MaskMissesLastColumn` says exactly which
  pixels are missed.
- Line 95 of `detect_color_blobs.c` compares a row with `min_y` where `max_y` is meant, so that `max_y` can end one row
  short. A run that touches nothing above it and is not the leftmost one above a lower run joins late; if the class of
  that lower run reaches further up by then, its bottom row is overwritten. `max_y` of a blob is exact if and only if
  some run of its bottom row is not overwritten (`LateRuns.BottomRecorded`, part of `Detect.DetectColorBlobs`);
  `Examples.LateBlobIsOneShort` is an image where it is not. With the other comparison every bottom row is exact, in
  whatever order runs come (`MaxGuard.EveryBottomExact`, `MaxGuardPass.GuardedPassReports`).
- `max_blobs` is documented as the number of blobs a list can represent. What it bounds is the number of blobs begun and
  not yet merged at any time: the report is complete if and only if the mask is not crowded (`LateRuns.CrowdedMask`), and
  a mask of a single blob can be crowded (`Examples.CombIsCrowded`, `Examples.CombIsMisreported`).
- `uv_run` has cols/4 slots, which is enough for every image if and only if 4 divides cols (`RowRuns.UvSlotsSufficeIff`).
- `frame_queue.h` promises NULL from a pop of an empty queue when `block_on_empty` is true; the code waits then, and returns
  NULL when it is false. `frame_queue.cpp` promises 0 from a successful push; the code returns the count.
- The search for a Huffman code tests for the end of the table before it tests for success, so the last code of every
  table is reported as not found (`Huffman.SearchDecodes`, `Huffman.LastCodeIsLost`).
- `usb_camera.cpp` promises NULL from pop on a timeout. select returns 0 then, which is not below 0, so the code goes on
  to the free list and the driver; it returns NULL only when select fails.
- A header length field below 8 makes the TIFF area's byte count wrap around 2^16
  (`TifTags.AreaEndsWithHeader`); the model wraps too.

## What callers must provide

`detect_color_blobs`: cols a multiple of 4, rows even, both below 65536, an allocated list, and an array that holds
the three planes. Frame queues: one thread in push and one in pop, and no wake-up without a signal, because the waits
are guarded by `if`. Huffman tables: at most 162 codes, and for the decoding lemmas a Kraft sum of at most 1. TIFF
area: inside the buffer, as the header's length field says. Clock: times within 2^60 microseconds and 2^49
milliseconds, so that no 64-bit expression over one message overflows.

## Model

| member | source | states |
|---|---|---|
| Detect.DetectColorBlobs | mjpg-streamer-master/mjpg-streamer-experimental/plugins/input_raspicam_696/detect_color_blobs.c:633-734 | Every entry of `root_info` ends with the exact count, coordinate sums, left, right and top of a contiguous set of mask pixels spanning at least two rows, and its bottom row or the row above; the sets are disjoint. They are exactly the 4-connected components of at least two rows if and only if the mask is not crowded (`LateRuns.CrowdedMask`), which is also when `make_set` is never refused, and always the case when both arrays have room for more than a quarter as many entries as pixels. Then `max_y` of a set is its bottom row if and only if some run of that row is not overwritten by a late run (`LateRuns.BottomRecorded`). Crowded or not, the sets are the classes of the unions that find room (`UnionLog.Carried`) in the one order in which a pass comes to the edges of the mask, and their bottom rows are exact under the same condition on these unions. The image is unchanged, or shaded by the mask when asked for |
| Detect.TotalIsTallPixels | mjpg-streamer-master/mjpg-streamer-experimental/plugins/input_raspicam_696/detect_color_blobs.c:912-920 | The counts of a complete report add up to the mask pixels whose component spans two rows; those of a partial one to no more |
| Detect.StatsFit | mjpg-streamer-master/mjpg-streamer-experimental/plugins/input_raspicam_696/detect_color_blobs.h:88-96 | Counts and coordinate sums are bounded by the image size, which says when the fields cannot wrap |
| Detect.MaskMissesLastColumn | mjpg-streamer-master/mjpg-streamer-experimental/plugins/input_raspicam_696/detect_color_blobs.h:191-196 | The code misses a documented blob pixel if and only if it is on an odd column and the chroma of the next column is out of range (or there is none) |
| Detect.LastColumnWitness | mjpg-streamer-master/mjpg-streamer-experimental/plugins/input_raspicam_696/detect_color_blobs.c:161-169 | A uniform 4 by 2 image: its last column meets the thresholds and is not detected |
| Detect.RowMaskIsMask | mjpg-streamer-master/mjpg-streamer-experimental/plugins/input_raspicam_696/yuv420.c:245-264 | The row-by-row mask of the scan is the mask stated pixel by pixel through `yuv420_get_pixel` |
| Detect.PixelBounds | mjpg-streamer-master/mjpg-streamer-experimental/plugins/input_raspicam_696/yuv420.c:256-260 | For even dimensions the three planes hold the luma and chroma of every pixel |
| Detect.PixelOfPlanes | mjpg-streamer-master/mjpg-streamer-experimental/plugins/input_raspicam_696/yuv420.c:245-264 | A pixel takes its luma from the first plane and its chroma from the second and third, one value of each for four pixels |
| Detect.MaskByComparisons | mjpg-streamer-master/mjpg-streamer-experimental/plugins/input_raspicam_696/detect_color_blobs.c:142-169 | A pixel is in the mask if and only if y_low <= Y, u_low <= U <= u_high and v_low <= V <= v_high there and, on an odd column, there is a next column whose U and V meet the same four bounds |
| Detect.GoodReports | mjpg-streamer-master/mjpg-streamer-experimental/plugins/input_raspicam_696/detect_color_blobs.c:616-618 | Whatever was refused, every entry is right about a contiguous part of the mask, and no pixel is counted twice |
| Detect.GoodReportsAll | mjpg-streamer-master/mjpg-streamer-experimental/plugins/input_raspicam_696/detect_color_blobs.c:616-618 | If all unions were carried out, the entries are exactly the components of at least two rows |
| Detect.BottomsReported | mjpg-streamer-master/mjpg-streamer-experimental/plugins/input_raspicam_696/detect_color_blobs.c:87-112 | With all unions carried out, `max_y` of each entry is its bottom row if and only if some run of that row is not overwritten by a late run |
| Detect.BottomsByUnions | mjpg-streamer-master/mjpg-streamer-experimental/plugins/input_raspicam_696/detect_color_blobs.c:87-112 | Whatever was refused, `max_y` of each entry is its bottom row if and only if some run of that row was not overwritten by the unions carried out |
| Detect.WithoutLateRunsExact | mjpg-streamer-master/mjpg-streamer-experimental/plugins/input_raspicam_696/detect_color_blobs.c:87-112 | On a mask without late runs every `max_y` is the bottom row |
| Detect.CompleteIffRoom | mjpg-streamer-master/mjpg-streamer-experimental/plugins/input_raspicam_696/detect_color_blobs.c:668-730 | The blobs of the unions that find room are all components of at least two rows if and only if the mask is not crowded |
| Detect.CrowdedIsIncomplete | mjpg-streamer-master/mjpg-streamer-experimental/plugins/input_raspicam_696/detect_color_blobs.c:268-275 | A pass over a crowded mask loses a run: it touches a run below it, and none of its pixels is in any blob |
| Detect.PassEnds | mjpg-streamer-master/mjpg-streamer-experimental/plugins/input_raspicam_696/detect_color_blobs.c:668-730 | After the last row the reports hold |
| LostRuns.PassIsUnique | mjpg-streamer-master/mjpg-streamer-experimental/plugins/input_raspicam_696/detect_color_blobs.c:598-630 | There is one order in which a pass comes to the edges of a mask |
| LostRuns.EdgesOfRunTogether | mjpg-streamer-master/mjpg-streamer-experimental/plugins/input_raspicam_696/detect_color_blobs.c:598-630 | The pass comes to all edges of an upper run one after the other |
| LostRuns.NeverCarried | mjpg-streamer-master/mjpg-streamer-experimental/plugins/input_raspicam_696/detect_color_blobs.c:268-275 | After the first refusal its upper run stays out of every union, because the rest of its edges finds the same full list |
| Detect.PassIsOver | mjpg-streamer-master/mjpg-streamer-experimental/plugins/input_raspicam_696/detect_color_blobs.c:668-730 | After the last row the unions asked for are all edges of the mask in the order of the pass, and the runs accounted for number at most half the pixels |
| Detect.SweptMore | mjpg-streamer-master/mjpg-streamer-experimental/plugins/input_raspicam_696/detect_color_blobs.c:720-721 | The unions asked for after one more row are exactly the pairs of overlapping runs of neighbouring rows so far |
| Detect.CoveredRowRuns | mjpg-streamer-master/mjpg-streamer-experimental/plugins/input_raspicam_696/detect_color_blobs.c:557-593 | The maximal intervals of a row of the mask are exactly its maximal pixel runs |
| Detect.DetectRow | mjpg-streamer-master/mjpg-streamer-experimental/plugins/input_raspicam_696/detect_color_blobs.c:671-691 | The chroma runs are those of the row pair, renewed on even rows only, and the luma runs are the maximal runs of the row |
| Detect.HighlightRow | mjpg-streamer-master/mjpg-streamer-experimental/plugins/input_raspicam_696/detect_color_blobs.c:693-715 | The row becomes its shaded image: detected pixels doubled up to 255, all others halved, through the last column |
| Detect.ShadeContrast | mjpg-streamer-master/mjpg-streamer-experimental/plugins/input_raspicam_696/detect_color_blobs.c:703-712 | A detected pixel never gets darker and reaches twice its luma as far as a byte goes; any other never gets brighter and keeps half; the values at 0, 127, 128 and 255 |
| Detect.PassRow | mjpg-streamer-master/mjpg-streamer-experimental/plugins/input_raspicam_696/detect_color_blobs.c:668-730 | One iteration keeps: unions asked for are those of all rows so far, in order; the row list is truthful; rows done are shaded |
| Pixels.BlockIsComponent | mjpg-streamer-master/mjpg-streamer-experimental/plugins/input_raspicam_696/detect_color_blobs.c:598-630 | A class of runs connected by unions of all touching pairs is a whole 4-connected component |
| Pixels.TallComponentIsBlock | mjpg-streamer-master/mjpg-streamer-experimental/plugins/input_raspicam_696/detect_color_blobs.c:598-630 | Every component of at least two rows is the pixels of some class |
| Pixels.BlockIsContiguous | mjpg-streamer-master/mjpg-streamer-experimental/plugins/input_raspicam_696/detect_color_blobs.c:598-630 | The pixels of a class are 4-connected to one another |
| Pixels.BlockIsClosed | mjpg-streamer-master/mjpg-streamer-experimental/plugins/input_raspicam_696/detect_color_blobs.c:598-630 | With all unions carried out a class has no mask neighbour outside it |
| Pixels.RunsAreDisjoint | mjpg-streamer-master/mjpg-streamer-experimental/plugins/input_raspicam_696/detect_color_blobs.c:557-593 | Two maximal runs that share a pixel are the same run |
| Pixels.RunSums | mjpg-streamer-master/mjpg-streamer-experimental/plugins/input_raspicam_696/detect_color_blobs.c:78-81 | The closed forms for a run are its pixel count and the sums of its pixel coordinates |
| Pixels.DescribesReports | mjpg-streamer-master/mjpg-streamer-experimental/plugins/input_raspicam_696/detect_color_blobs.c:70-112 | Statistics right about runs are right about pixels: count, sums, left, right, top, and bottom up to one row |
| RowRuns.UvIsIn | mjpg-streamer-master/mjpg-streamer-experimental/plugins/input_raspicam_696/detect_color_blobs.c:132-143 | True if and only if the U of the block that holds column jj is within its two bounds and the V, a quarter of the pixels further on, within its two |
| RowRuns.CreateUvRunSequence | mjpg-streamer-master/mjpg-streamer-experimental/plugins/input_raspicam_696/detect_color_blobs.c:147-175 | The runs are the maximal runs of the chroma mask, sorted and apart, inside the array |
| RowRuns.UvSlotsSufficeIff | mjpg-streamer-master/mjpg-streamer-experimental/plugins/input_raspicam_696/detect_color_blobs.c:655-656 | The cols/4 slots of `uv_run` hold the runs of every chroma row if and only if 4 divides cols |
| RowRuns.UvRunEnd | mjpg-streamer-master/mjpg-streamer-experimental/plugins/input_raspicam_696/detect_color_blobs.c:163-166 | The first column at or after the given one whose chroma is out of range, or the end of the row |
| RowRuns.UvMaskRun | mjpg-streamer-master/mjpg-streamer-experimental/plugins/input_raspicam_696/detect_color_blobs.c:160-168 | A chroma run lets through all of its columns but the last, odd one |
| RowRuns.DetectYuvRunsInRow | mjpg-streamer-master/mjpg-streamer-experimental/plugins/input_raspicam_696/detect_color_blobs.c:557-593 | The runs are the maximal runs of pixels that pass the chroma and luma tests, none with a parent yet, inside the array |
| RowRuns.LumaEnd | mjpg-streamer-master/mjpg-streamer-experimental/plugins/input_raspicam_696/detect_color_blobs.c:569-580 | The inner loops stop at the first column whose luma test changes, or at the end of the chroma run |
| RowRuns.CoversAtMostHalf | mjpg-streamer-master/mjpg-streamer-experimental/plugins/input_raspicam_696/detect_color_blobs.c:661-662 | Runs with gaps between them number at most half the columns, so cols/2 slots suffice |
| Sweep.YuvRunRowUnion | mjpg-streamer-master/mjpg-streamer-experimental/plugins/input_raspicam_696/detect_color_blobs.c:598-630 | `yuv_run_union` is called exactly once for each overlapping pair and for no other, from left to right, in at most a_count + b_count - 1 calls |
| Sweep.CoverPastA | mjpg-streamer-master/mjpg-streamer-experimental/plugins/input_raspicam_696/detect_color_blobs.c:614-621 | A run of the upper row can be left behind once it ends before the other run does |
| Sweep.CoverPastB | mjpg-streamer-master/mjpg-streamer-experimental/plugins/input_raspicam_696/detect_color_blobs.c:614-625 | Likewise for the lower row |
| Sweep.UnionStep | mjpg-streamer-master/mjpg-streamer-experimental/plugins/input_raspicam_696/detect_color_blobs.c:617-617 | One call keeps both row lists truthful and asks for one union |
| BlobLists.BlobList.constructor | mjpg-streamer-master/mjpg-streamer-experimental/plugins/input_raspicam_696/detect_color_blobs.c:872-889 | An empty list with the given capacities; max_runs + 1 is truncated to 16 bits |
| BlobLists.BlobList.Clear | mjpg-streamer-master/mjpg-streamer-experimental/plugins/input_raspicam_696/detect_color_blobs.c:898-910 | The list is empty, index 0 reserved |
| BlobLists.BlobList.SetRootListEntry | mjpg-streamer-master/mjpg-streamer-experimental/plugins/input_raspicam_696/detect_color_blobs.c:245-252 | The two back-pointers are set and nothing else changes |
| BlobLists.BlobList.MakeSet | mjpg-streamer-master/mjpg-streamer-experimental/plugins/input_raspicam_696/detect_color_blobs.c:265-298 | Refused exactly when one of the arrays is full, and then nothing changes; otherwise a new root with a new last entry and the statistics of the run |
| BlobLists.BlobList.DeleteRootListEntry | mjpg-streamer-master/mjpg-streamer-experimental/plugins/input_raspicam_696/detect_color_blobs.c:308-321 | The last entry replaces the deleted one and its node points at the new place, also when the two are the same |
| BlobLists.BlobList.SetParent | mjpg-streamer-master/mjpg-streamer-experimental/plugins/input_raspicam_696/detect_color_blobs.c:333-353 | On a root: statistics merged, entry deleted by swap with the last, child no longer a root. On any other node: only its parent changes |
| BlobLists.BlobList.FindRootRecursive | mjpg-streamer-master/mjpg-streamer-experimental/plugins/input_raspicam_696/detect_color_blobs.c:382-392 | Terminates and returns the root; only parent pointers change, and those that change point straight at their roots |
| BlobLists.BlobList.FindRoot | mjpg-streamer-master/mjpg-streamer-experimental/plugins/input_raspicam_696/detect_color_blobs.c:401-414 | Returns the root; no label, rank, statistic or list entry changes |
| BlobLists.BlobList.LinkRoots | mjpg-streamer-master/mjpg-streamer-experimental/plugins/input_raspicam_696/detect_color_blobs.c:426-447 | The root of the larger rank, or t if they are equal, adopts the other; the new state is that of `Forest.Link` |
| BlobLists.BlobList.JoinNewPair | mjpg-streamer-master/mjpg-streamer-experimental/plugins/input_raspicam_696/detect_color_blobs.c:464-486 | Neither run has a node: one is made for both, or the union is refused and nothing changes |
| BlobLists.BlobList.JoinSingleton | mjpg-streamer-master/mjpg-streamer-experimental/plugins/input_raspicam_696/detect_color_blobs.c:511-524 | A run without a node joins the class of the other without getting one |
| BlobLists.BlobList.JoinNodes | mjpg-streamer-master/mjpg-streamer-experimental/plugins/input_raspicam_696/detect_color_blobs.c:525-534 | Two nodes: their classes become one unless they already are |
| BlobLists.BlobList.YuvRunUnion | mjpg-streamer-master/mjpg-streamer-experimental/plugins/input_raspicam_696/detect_color_blobs.c:451-552 | The classes of the two runs become one block and every other block is as before; refused exactly when neither run has a node and the list is full, and then nothing changes. The list stays valid: its bottom rows and its refusals are what the unions so far make them |
| BlobLists.BlobList.JoinRuns | mjpg-streamer-master/mjpg-streamer-experimental/plugins/input_raspicam_696/detect_color_blobs.c:458-540 | The cases of one union |
| BlobLists.BlobList.AskedMore | mjpg-streamer-master/mjpg-streamer-experimental/plugins/input_raspicam_696/detect_color_blobs.c:268-275 | A union finds no room exactly when neither run has a node and one of the arrays is full; otherwise it is carried out |
| BlobLists.BlobList.TotalBlobPixelCount | mjpg-streamer-master/mjpg-streamer-experimental/plugins/input_raspicam_696/detect_color_blobs.c:912-920 | The number of pixels of all runs that were given a set |
| BlobLists.BlobList.FullMeansManyRuns | mjpg-streamer-master/mjpg-streamer-experimental/plugins/input_raspicam_696/detect_color_blobs.c:268-275 | A full list accounts for at least two runs for every blob it has room for |
| BlobLists.TotalsConserved | mjpg-streamer-master/mjpg-streamer-experimental/plugins/input_raspicam_696/detect_color_blobs.c:308-353 | Totals of count, sum_x and sum_y over `root_info` are those of the runs accounted for |
| BlobLists.SameRootIffConnected | mjpg-streamer-master/mjpg-streamer-experimental/plugins/input_raspicam_696/detect_color_blobs.c:451-552 | Two runs have the same root if and only if the unions carried out connect them |
| BlobLists.NewPairIsGood | mjpg-streamer-master/mjpg-streamer-experimental/plugins/input_raspicam_696/detect_color_blobs.c:464-480 | A union that makes a node keeps the invariant and the partition generated by the unions |
| BlobLists.ExtendIsGood | mjpg-streamer-master/mjpg-streamer-experimental/plugins/input_raspicam_696/detect_color_blobs.c:511-524 | So does one that only extends the statistics |
| BlobLists.LinkIsGood | mjpg-streamer-master/mjpg-streamer-experimental/plugins/input_raspicam_696/detect_color_blobs.c:525-534 | So does one that links two roots, whichever way round |
| BlobLists.RootsNoMoreThanNodes | mjpg-streamer-master/mjpg-streamer-experimental/plugins/input_raspicam_696/detect_color_blobs.h:145-156 | There is at most one entry of `root_info` per node |
| BlobLists.EntriesDiffer | mjpg-streamer-master/mjpg-streamer-experimental/plugins/input_raspicam_696/detect_color_blobs.h:145-156 | No run is counted in two entries |
| UnionLog.FullIffNoRoom | mjpg-streamer-master/mjpg-streamer-experimental/plugins/input_raspicam_696/detect_color_blobs.c:268-275 | One of the arrays is full if and only if the unions so far leave no room: nodes number one more than the unions that were the first for both runs, entries as many as the blocks those unions generate |
| UnionLog.AllCarriedIff | mjpg-streamer-master/mjpg-streamer-experimental/plugins/input_raspicam_696/detect_color_blobs.c:268-275 | All unions are carried out if and only if none finds no room |
| UnionLog.AsManyEntriesAsBlocks | mjpg-streamer-master/mjpg-streamer-experimental/plugins/input_raspicam_696/detect_color_blobs.h:145-156 | There is exactly one entry of `root_info` for every block |
| UnionLog.NewPairBottoms | mjpg-streamer-master/mjpg-streamer-experimental/plugins/input_raspicam_696/detect_color_blobs.c:464-480 | A new pair is recorded with its bottom row |
| UnionLog.LowerJoinsBottoms | mjpg-streamer-master/mjpg-streamer-experimental/plugins/input_raspicam_696/detect_color_blobs.c:511-524 | A lower run that joins a class is recorded as its bottom row |
| UnionLog.LateRunBottom | mjpg-streamer-master/mjpg-streamer-experimental/plugins/input_raspicam_696/detect_color_blobs.c:94-95 | A late upper run overwrites the bottom row of a class if and only if the class reaches further up than the run |
| UnionLog.UpperJoinsBottoms | mjpg-streamer-master/mjpg-streamer-experimental/plugins/input_raspicam_696/detect_color_blobs.c:511-524 | A late upper run keeps: `max_y` is the bottom row if and only if some run of that row was not overwritten |
| UnionLog.LinkKeepsBottoms | mjpg-streamer-master/mjpg-streamer-experimental/plugins/input_raspicam_696/detect_color_blobs.c:103-112 | Linking keeps it |
| UnionLog.OldUpperKeepsBottoms | mjpg-streamer-master/mjpg-streamer-experimental/plugins/input_raspicam_696/detect_color_blobs.c:525-534 | A union whose upper run has a node overwrites nothing |
| LateRuns.LateIff | mjpg-streamer-master/mjpg-streamer-experimental/plugins/input_raspicam_696/detect_color_blobs.c:511-524 | A run joins late if and only if it touches nothing above and is not the leftmost run above the lower one |
| LateRuns.PrefixIsEarlier | mjpg-streamer-master/mjpg-streamer-experimental/plugins/input_raspicam_696/detect_color_blobs.c:598-630 | The unions asked for before one are the edges of higher rows and of the same rows further left |
| LateRuns.CrowdedIff | mjpg-streamer-master/mjpg-streamer-experimental/plugins/input_raspicam_696/detect_color_blobs.c:268-275 | The pass runs out of room if and only if the mask is crowded: at some edge whose runs are both new, all nodes are taken or as many blobs are begun and not merged as there are places |
| LateRuns.OverwrittenIff | mjpg-streamer-master/mjpg-streamer-experimental/plugins/input_raspicam_696/detect_color_blobs.c:94-95 | The unions of a pass overwrite a run if and only if a late run of the mask does, in whose class the run and some run further up are by then |
| LateRuns.RecordedIff | mjpg-streamer-master/mjpg-streamer-experimental/plugins/input_raspicam_696/detect_color_blobs.c:94-95 | The condition on unions for an exact bottom row is the condition on the mask |
| LateRuns.NoLateRunRecorded | mjpg-streamer-master/mjpg-streamer-experimental/plugins/input_raspicam_696/detect_color_blobs.c:94-95 | A component with no late run above its bottom row is reported with its bottom row |
| MaxGuard.SingletonExact | mjpg-streamer-master/mjpg-streamer-experimental/plugins/input_raspicam_696/detect_color_blobs.c:94-95 | With the comparison on `max_y` a run may join from any row and the box stays right and exact |
| MaxGuard.EveryBottomExact | mjpg-streamer-master/mjpg-streamer-experimental/plugins/input_raspicam_696/detect_color_blobs.c:94-95 | With that comparison, any sequence of `make_set`, late runs, `link` and path compression leaves every box right and every bottom row exact, and keeps the forest invariant |
| MaxGuardPass.UnionExact | mjpg-streamer-master/mjpg-streamer-experimental/plugins/input_raspicam_696/detect_color_blobs.c:451-552 | With that comparison each union is such a sequence of changes, or finds no room and changes nothing, and keeps the partition of the unions carried out |
| MaxGuardPass.GuardedPassReports | mjpg-streamer-master/mjpg-streamer-experimental/plugins/input_raspicam_696/detect_color_blobs.c:633-734 | With that comparison a whole pass, whatever room there is and whatever paths are compressed, leaves the same blobs, complete if and only if the mask is not crowded, and every `max_y` is the bottom row in pixels |
| MaxGuardPass.GuardedPassExists | mjpg-streamer-master/mjpg-streamer-experimental/plugins/input_raspicam_696/detect_color_blobs.c:633-734 | No change of such a pass is ever impossible |
| Examples.PictureMask | mjpg-streamer-master/mjpg-streamer-experimental/plugins/input_raspicam_696/detect_color_blobs.c:147-175 | The mask of a 4 by 4 picture is its bits without the last column |
| Examples.LateBlobIsOneShort | mjpg-streamer-master/mjpg-streamer-experimental/plugins/input_raspicam_696/detect_color_blobs.c:94-95 | A 4 by 4 image of four runs, one of them late: its one blob ends in row 2 and is reported with `max_y` 1 |
| Examples.CombIsCrowded | mjpg-streamer-master/mjpg-streamer-experimental/plugins/input_raspicam_696/detect_color_blobs.h:166-167 | A 4 by 4 image of one comb-shaped blob for which a list with `max_blobs` 1 has no room, however many runs it has room for |
| Examples.CombIsMisreported | mjpg-streamer-master/mjpg-streamer-experimental/plugins/input_raspicam_696/detect_color_blobs.h:166-167 | Whatever list a pass over that image leaves, it misses a run of the blob |
| Forest.AddNodeIsSound | mjpg-streamer-master/mjpg-streamer-experimental/plugins/input_raspicam_696/detect_color_blobs.c:265-298 | `make_set` keeps the forest invariant: index 0 reserved, ranks rising to the root, list indices exactly at roots and inverse to `set_index`, subtree sizes at least 2^rank, statistics right |
| Forest.CompressIsSound | mjpg-streamer-master/mjpg-streamer-experimental/plugins/input_raspicam_696/detect_color_blobs.c:382-414 | Path compression keeps it |
| Forest.ExtendIsSound | mjpg-streamer-master/mjpg-streamer-experimental/plugins/input_raspicam_696/detect_color_blobs.c:511-524 | A late run keeps it, if no run of the class is more than one row below |
| Forest.LinkIsSound | mjpg-streamer-master/mjpg-streamer-experimental/plugins/input_raspicam_696/detect_color_blobs.c:426-447 | `link` with `set_parent` and swap-with-last deletion keeps it, also when the parent is the entry that moves |
| Forest.ChaseFindsRoot | mjpg-streamer-master/mjpg-streamer-experimental/plugins/input_raspicam_696/detect_color_blobs.c:382-392 | Parent pointers lead to the root in at most as many hops as the rank of the root |
| Forest.RankIsLogarithmic | mjpg-streamer-master/mjpg-streamer-experimental/plugins/input_raspicam_696/detect_color_blobs.c:426-447 | Ranks and depths are at most the base-2 logarithm of the number of used nodes |
| Forest.RankFitsUshort | mjpg-streamer-master/mjpg-streamer-experimental/plugins/input_raspicam_696/detect_color_blobs.h:107-108 | Every rank is below 16, so the unsigned short never overflows |
| Forest.RootsAreLinked | mjpg-streamer-master/mjpg-streamer-experimental/plugins/input_raspicam_696/detect_color_blobs.c:245-252 | A root and its entry point at each other and its statistics are those of its class |
| Partition.TogetherIffConnected | mjpg-streamer-master/mjpg-streamer-experimental/plugins/input_raspicam_696/detect_color_blobs.c:451-552 | Two runs share a block of the generated partition if and only if the unions connect them |
| Partition.GeneratedIsUnique | mjpg-streamer-master/mjpg-streamer-experimental/plugins/input_raspicam_696/detect_color_blobs.c:451-552 | The unions determine the partition, whatever their order |
| Partition.JoinIsGenerated | mjpg-streamer-master/mjpg-streamer-experimental/plugins/input_raspicam_696/detect_color_blobs.c:451-552 | Merging the two classes turns the partition of some unions into that of one more |
| Partition.BlocksOfLink | mjpg-streamer-master/mjpg-streamer-experimental/plugins/input_raspicam_696/detect_color_blobs.c:426-447 | `link` merges exactly the two given classes |
| Partition.BlocksOfExtend | mjpg-streamer-master/mjpg-streamer-experimental/plugins/input_raspicam_696/detect_color_blobs.c:511-524 | A late run joins exactly the class of its neighbour |
| Partition.BlocksOfNewPair | mjpg-streamer-master/mjpg-streamer-experimental/plugins/input_raspicam_696/detect_color_blobs.c:464-480 | A new node holds exactly the two runs |
| BlobStats.InitDescribes | mjpg-streamer-master/mjpg-streamer-experimental/plugins/input_raspicam_696/detect_color_blobs.c:70-82 | The statistics of one run |
| BlobStats.SingletonDescribes | mjpg-streamer-master/mjpg-streamer-experimental/plugins/input_raspicam_696/detect_color_blobs.c:87-100 | Adding a run no more than one row above the rest keeps sums and sides exact and the bottom within one row |
| BlobStats.AddDescribes | mjpg-streamer-master/mjpg-streamer-experimental/plugins/input_raspicam_696/detect_color_blobs.c:103-112 | Merging the statistics of two disjoint sets describes their union |
| BlobStats.SingletonBottomExactIff | mjpg-streamer-master/mjpg-streamer-experimental/plugins/input_raspicam_696/detect_color_blobs.c:94-95 | From an exact box, `max_y` stays exact if and only if the added row is not strictly inside the box |
| BlobStats.MaxGuardKeepsBottomExact | mjpg-streamer-master/mjpg-streamer-experimental/plugins/input_raspicam_696/detect_color_blobs.c:94-95 | With the comparison on `max_y` the box stays exact whatever the order |
| BlobStats.AddKeepsBottomExact | mjpg-streamer-master/mjpg-streamer-experimental/plugins/input_raspicam_696/detect_color_blobs.c:103-112 | Merging exact boxes is exact |
| BlobStats.BottomOneShortWitness | mjpg-streamer-master/mjpg-streamer-experimental/plugins/input_raspicam_696/detect_color_blobs.c:94-95 | The updates for the four runs of the image of `Examples.LateBlobIsOneShort`: the recorded bottom is one row short |
| FrameQueues.FrameQueue.constructor | 2014_odroid_camera-master/frame_queue.cpp:7-19 | An empty queue, its size brought into 1 to 32 |
| FrameQueues.FrameQueue.GetItemCount | 2014_odroid_camera-master/frame_queue.cpp:50-55 | The number of frames in the queue |
| FrameQueues.FrameQueue.Push | 2014_odroid_camera-master/frame_queue.cpp:22-47 | Up to returning or waiting, push is the step `PushStep` of a bounded FIFO (its answers and its order are in `FrameQueues.PushAnswers` and `FrameQueues.RunHandsOver`); a refused or waiting push leaves the frames as they were although slot tail was written |
| FrameQueues.FrameQueue.ResumePush | 2014_odroid_camera-master/frame_queue.cpp:31-46 | Once signalled, push appends its frame and returns the new count |
| FrameQueues.FrameQueue.Pop | 2014_odroid_camera-master/frame_queue.cpp:59-87 | Up to returning or waiting, pop is that of a bounded FIFO |
| FrameQueues.FrameQueue.ResumePop | 2014_odroid_camera-master/frame_queue.cpp:65-86 | Once signalled, pop takes the first frame and returns the count left |
| FrameQueues.TailSlotIsFree | 2014_odroid_camera-master/frame_queue.cpp:26-26 | Writing the slot at tail never hits a live frame |
| FrameQueues.RingAppend | 2014_odroid_camera-master/frame_queue.cpp:27-42 | Advancing tail appends one frame unless the ring is full |
| FrameQueues.RingTake | 2014_odroid_camera-master/frame_queue.cpp:82-83 | Advancing head takes the first frame |
| FrameQueues.RingLength | 2014_odroid_camera-master/frame_queue.cpp:28-54 | The count, and the tests for full and empty, mean what they should |
| FrameQueues.WakingOnFullEmptiesTheRing | 2014_odroid_camera-master/frame_queue.cpp:29-42 | A producer that went on while the queue was full would empty it: the `if` around the wait relies on signals alone |
| FrameQueues.WakingOnEmptyFillsTheRing | 2014_odroid_camera-master/frame_queue.cpp:62-83 | A consumer that went on while the queue was empty would make it full of stale frames |
| FrameQueues.StepKeepsInv | 2014_odroid_camera-master/frame_queue.cpp:22-87 | A waiter that was not signalled is right to wait, one that was finds what it waited for; what goes in comes out in order |
| FrameQueues.RunIsFifo | 2014_odroid_camera-master/frame_queue.cpp:22-87 | In every interleaving frames are popped in the order in which they were published, none lost or repeated, and the waiting conditions hold at the end |
| FrameQueues.RunHandsOver | 2014_odroid_camera-master/frame_queue.cpp:22-87 | In every interleaving the arguments of the pushes not refused, in order, are what came out, then what is in the queue, then the frame of a producer still waiting: a wait does not lose or replace its frame |
| FrameQueues.BlockingTakesAll | 2014_odroid_camera-master/frame_queue.cpp:29-36 | A queue that blocks on full refuses no push, so these are the arguments of all pushes |
| FrameQueues.PushAnswers | 2014_odroid_camera-master/frame_queue.cpp:22-47 | With room, the frame is last and the answer is the number of frames now in the queue; without, push waits with its own frame or refuses it, as the flag says, and nothing else changes |
| FrameQueues.ResumedPushAnswers | 2014_odroid_camera-master/frame_queue.cpp:37-46 | A push that waited appends the frame it waited with and answers the number of frames now in the queue |
| FrameQueues.PopAnswers | 2014_odroid_camera-master/frame_queue.cpp:59-87 | The frame that was first and the number of frames left; on an empty queue pop waits or finds nothing, as the flag says |
| FrameQueues.ResumedPopAnswers | 2014_odroid_camera-master/frame_queue.cpp:73-86 | A pop that waited takes the first frame and gives the number of frames left |
| FrameQueues.NeverBothStuck | 2014_odroid_camera-master/frame_queue.cpp:22-87 | Producer and consumer are never both stuck, and the next operation of the other signals the one that is |
| CamPipeline.UsbCamera.InitMmap | 2014_odroid_camera-master/usb_camera.cpp:211-258 | All mapped frames are free, in order, and their buffers with the driver: the state the two threads start in |
| CamPipeline.UsbCamera.Push | 2014_odroid_camera-master/usb_camera.cpp:260-268 | The buffer goes to the driver and the frame to the free list, which takes the step `PushStep`; -1 only if the list is full |
| CamPipeline.UsbCamera.Pop | 2014_odroid_camera-master/usb_camera.cpp:272-297 | NULL exactly when select fails, the exception exactly when no frame is free; else the first free frame, and the buffer the driver returns is its own |
| CamPipeline.StepKeepsPipe | 2014_odroid_camera-master/cam_thread.cpp:52-107 | Every step of either thread keeps all frames in one rotation of the original order, and the driver holding the buffers of the free frames in order |
| CamPipeline.RunKeepsPipe | 2014_odroid_camera-master/cam_thread.cpp:52-107 | So does every run |
| CamPipeline.FramesCirculate | 2014_odroid_camera-master/cam_thread.cpp:111-141 | In every interleaving no frame is lost or duplicated, the capture thread never blocks on the queue, the camera push never returns -1, each dequeued buffer is that of the frame just popped, the capture thread goes on until select fails or all frames are queued or displayed, and the display thread can go on unless the queue is empty |
| Huffman.AndTopBits | mjpg-streamer-master/mjpg-streamer-experimental/plugins/output_autofocus/processJPEG_onlyCenter.c:153-153 | Masking with len ones above k zeros clears the low k bits |
| Huffman.HuffmanTable.AddCodes | mjpg-streamer-master/mjpg-streamer-experimental/plugins/output_autofocus/processJPEG_onlyCenter.c:104-111 | The codes of one length occupy the next entries and the next intervals of words |
| Huffman.HuffmanTable.Build | mjpg-streamer-master/mjpg-streamer-experimental/plugins/output_autofocus/processJPEG_onlyCenter.c:98-115 | Entry k holds byte k of the symbols, its length, and as bits the sum of 2^(32 - len) over the entries before it, modulo 2^32; the position returned is behind the symbols |
| Huffman.HuffmanTable.ReadCode | mjpg-streamer-master/mjpg-streamer-experimental/plugins/output_autofocus/processJPEG_onlyCenter.c:151-164 | The first matching entry and the bits shifted past it; -1, with the bits untouched, when the end of the table is reached |
| Huffman.MatchesItsShare | mjpg-streamer-master/mjpg-streamer-experimental/plugins/output_autofocus/processJPEG_onlyCenter.c:104-112 | If the Kraft sum is at most 1, code k matches exactly the words of its own interval |
| Huffman.PrefixFree | mjpg-streamer-master/mjpg-streamer-experimental/plugins/output_autofocus/processJPEG_onlyCenter.c:104-112 | No word matches two codes |
| Huffman.SearchDecodes | mjpg-streamer-master/mjpg-streamer-experimental/plugins/output_autofocus/processJPEG_onlyCenter.c:152-163 | A word that begins with code k is decoded as entry k, its symbol and its length, and as nothing else, if and only if k is not the last entry; the last code is never decoded |
| Huffman.LastCodeIsLost | mjpg-streamer-master/mjpg-streamer-experimental/plugins/output_autofocus/processJPEG_onlyCenter.c:152-163 | With the two codes 0 and 10, a word that begins with 10 is reported as not found |
| Huffman.SearchFails | mjpg-streamer-master/mjpg-streamer-experimental/plugins/output_autofocus/processJPEG_onlyCenter.c:160-162 | A word that begins with no code is not decoded |
| Huffman.ShiftDropsCode | mjpg-streamer-master/mjpg-streamer-experimental/plugins/output_autofocus/processJPEG_onlyCenter.c:164-164 | The shift drops the code and nothing else |
| Huffman.LengthAt | mjpg-streamer-master/mjpg-streamer-experimental/plugins/output_autofocus/processJPEG_onlyCenter.c:102-109 | The codes of one length come right after all shorter ones |
| BlockCoding.ExtendInverts | mjpg-streamer-master/mjpg-streamer-experimental/plugins/output_autofocus/processJPEG_onlyCenter.h:1-1 | HUFF_EXTEND gives back every value from its low-order bits and its size |
| BlockCoding.ExtendOrders | mjpg-streamer-master/mjpg-streamer-experimental/plugins/output_autofocus/processJPEG_onlyCenter.h:1-1 | On the numbers of s >= 1 bits HUFF_EXTEND is strictly increasing, and its values have magnitudes from 2^(s-1) up to 2^s: this leaves one possible value for each number |
| BlockCoding.ReadTable | mjpg-streamer-master/mjpg-streamer-experimental/plugins/output_autofocus/processJPEG_onlyCenter.c:181-216 | On any symbols the loop terminates with all writes inside the 128 entries; the DC predictor is advanced even when the AC symbols fail; success, table and rest are those of `DecodeBlock` (`BlockCoding.DecodedIff`, `BlockCoding.DecodedTable`) |
| BlockCoding.DecodedIff | mjpg-streamer-master/mjpg-streamer-experimental/plugins/output_autofocus/processJPEG_onlyCenter.c:181-216 | A block is decoded if and only if there is a DC symbol and the symbols after it announce exactly 63 coefficients, or fewer before an end symbol; it fails if and only if there is no DC symbol, or they announce more than 63, or run out before |
| BlockCoding.DecodedTable | mjpg-streamer-master/mjpg-streamer-experimental/plugins/output_autofocus/processJPEG_onlyCenter.c:181-216 | A decoded block: the DC value is the last one plus its difference; each symbol with a value puts it, sign extended, at the coefficient the symbol announces last, between 1 and 63; all other coefficients are 0, the entries past them are untouched, and the rest begins after the last symbol used |
| BlockCoding.AcInverts | mjpg-streamer-master/mjpg-streamer-experimental/plugins/output_autofocus/processJPEG_onlyCenter.c:192-215 | The AC loop inverts run/size coding from any coefficient on: runs over 15, trailing EOB, no EOB when coefficient 63 is nonzero |
| BlockCoding.BlockInverts | mjpg-streamer-master/mjpg-streamer-experimental/plugins/output_autofocus/processJPEG_onlyCenter.c:181-216 | Decoding a coded block gives back its 64 coefficients and leaves the rest of the symbols |
| BlockCoding.BlocksInvert | mjpg-streamer-master/mjpg-streamer-experimental/plugins/output_autofocus/processJPEG_onlyCenter.c:227-235 | Any sequence of blocks survives coding and decoding with the DC value carried along |
| BlockCoding.BlocksAreCalls | mjpg-streamer-master/mjpg-streamer-experimental/plugins/output_autofocus/processJPEG_onlyCenter.c:227-235 | The blocks read from any symbols are those of one call after the other: each starts where the last one stopped, with the DC value of the block before |
| Clock.ClientInfo.constructor | mjpg-streamer-master/mjpg-streamer-experimental/plugins/input_raspicam_696/udp_comms.c:160-165 | The fields of a new client |
| Clock.ClientInfo.HandleEchoTime | mjpg-streamer-master/mjpg-streamer-experimental/plugins/input_raspicam_696/udp_comms.c:232-294 | The fields change as `Update` says (in closed form `Clock.RunSums`); -1 for a reply that arrives before its request; another request exactly when samples are too few, and then what sending it returns. An honest reply keeps the estimate calibrated |
| Clock.ClientInfo.ConvertToClientMsecs | mjpg-streamer-master/mjpg-streamer-experimental/plugins/input_raspicam_696/udp_comms.h:202-207 | Once a sample was accepted, the converted time is less than half the longest accepted round trip and 2 ms behind the true client clock, and less than a whole one and 1 ms ahead |
| Clock.RunSums | mjpg-streamer-master/mjpg-streamer-experimental/plugins/input_raspicam_696/udp_comms.c:240-265 | After any messages: the start is the client time of the first reply; the smallest offset is that of some accepted sample and no larger than that of any, INT64_MAX without one; sum and count are those of the accepted round trips; the mean is half the mean round trip, truncated, once there are enough samples, and 0 before; the last ping is the arrival of the last reply with a round trip that is not negative |
| Clock.ConversionTruncates | mjpg-streamer-master/mjpg-streamer-experimental/plugins/input_raspicam_696/udp_comms.h:196-207 | The converted time less the start of the client is the host time plus the mean half round trip less the smallest offset, divided by 1000 and truncated towards zero |
| Clock.SampleWindow | mjpg-streamer-master/mjpg-streamer-experimental/plugins/input_raspicam_696/udp_comms.c:252-255 | A sample is off the true offset by at most half its round trip, and a millisecond more on one side |
| Clock.MeanBound | mjpg-streamer-master/mjpg-streamer-experimental/plugins/input_raspicam_696/udp_comms.c:262-264 | The mean of the half round trips is at most half the longest accepted one |
| Clock.OffsetFits | mjpg-streamer-master/mjpg-streamer-experimental/plugins/input_raspicam_696/udp_comms.c:254-256 | Every sample is below the INT64_MAX that stands for none |
| Clock.UpdateCalibrates | mjpg-streamer-master/mjpg-streamer-experimental/plugins/input_raspicam_696/udp_comms.c:243-265 | Every message keeps the estimate calibrated |
| Clock.RunCalibrates | mjpg-streamer-master/mjpg-streamer-experimental/plugins/input_raspicam_696/udp_comms.c:243-265 | So does every run of messages |
| Clock.ConversionErrorBound | mjpg-streamer-master/mjpg-streamer-experimental/plugins/input_raspicam_696/udp_comms.h:196-207 | After any run with an accepted sample the converted time is less than half the longest accepted round trip and 2 ms behind the true client clock, and less than a whole one and 1 ms ahead |
| TifTags.OverwriteTifTags | mjpg-streamer-master/mjpg-streamer-experimental/plugins/input_raspicam_696/overwrite_tif_tags.c:66-240 | -1 exactly for a wrong header or too small an area, and then no byte changes; otherwise the tags, the longest prefix of whole boxes that fits, converted to the video, and zeros to the end, nothing outside the area changed, and parsing the result gives the tags and those boxes back |
| TifTags.WrittenBytes | mjpg-streamer-master/mjpg-streamer-experimental/plugins/input_raspicam_696/overwrite_tif_tags.c:118-238 | Every byte of a written area by its offset: the header, the four entries with exposure at 18, Y, U, V and flags at 30, the coordinate count at 52, the end marker, the four gains in order from 62 to 77, coordinate k at 78 + 2k, zeros after the last, all numbers big-endian |
| TifTags.NumbersInOrder | mjpg-streamer-master/mjpg-streamer-experimental/plugins/input_raspicam_696/overwrite_tif_tags.c:55-64 | One 32-bit number is less than another if and only if its bytes come first in lexicographic order: the most significant is written first |
| TifTags.ShortsInOrder | mjpg-streamer-master/mjpg-streamer-experimental/plugins/input_raspicam_696/overwrite_tif_tags.c:226-231 | The same for 16 bits |
| TifTags.ScaledIsNearest | mjpg-streamer-master/mjpg-streamer-experimental/plugins/input_raspicam_696/overwrite_tif_tags.c:216-224 | In `ToVideo`, the rational form of the conversion, x is scaled by the widths and y by the heights, to the nearest whole number, halves up, then cut to 16 bits; nothing is cut when the video is no larger |
| TifTags.StoreCoords | mjpg-streamer-master/mjpg-streamer-experimental/plugins/input_raspicam_696/overwrite_tif_tags.c:216-232 | The coordinates, x scaled across and y down, in big-endian order, nothing else changed |
| TifTags.SameSizesScaleNothing | mjpg-streamer-master/mjpg-streamer-experimental/plugins/input_raspicam_696/overwrite_tif_tags.c:216-224 | Equal camera and video sizes leave every coordinate as it is |
| TifTags.ClearTail | mjpg-streamer-master/mjpg-streamer-experimental/plugins/input_raspicam_696/overwrite_tif_tags.c:236-238 | Zeros up to the end of the area, nothing else changed |
| TifTags.KeptIsLongest | mjpg-streamer-master/mjpg-streamer-experimental/plugins/input_raspicam_696/overwrite_tif_tags.c:111-116 | The count kept is the largest multiple of 4 that is given and fits |
| TifTags.AreaEndsWithHeader | mjpg-streamer-master/mjpg-streamer-experimental/plugins/input_raspicam_696/overwrite_tif_tags.c:91-104 | The area ends where the length field says if and only if the field is at least 8; below 8 its size is the field plus 65528 |
| TifTags.Numbers32 | mjpg-streamer-master/mjpg-streamer-experimental/plugins/input_raspicam_696/overwrite_tif_tags.c:55-64 | A word written in network byte order reads back |
| TifTags.ParseTifTags | dash696-master/dash696.py:1048-1088 | The two loops compute `Parse` (what that is on any bytes, `TifTags.ParseFinds`); a slice that is too short is an error |
| TifTags.NumbersAreBigEndian | dash696-master/dash696.py:1050-1086 | Two or four bytes are read as the number they stand for to the base 256, the most significant first |
| TifTags.ParseFinds | dash696-master/dash696.py:1048-1088 | On any bytes: an error exactly when the header, the directory, the four gains or the boxes are cut off; else exposure, colour, offsets and counts are those of the last entry with their tag, or 0 without one, the gains are read only when there are four at an offset, and box k is at the offset plus 8k |
| TifTags.BoxesAt | dash696-master/dash696.py:1083-1087 | Box k is made of coordinates 4k to 4k + 3, in order, and there is one for every four |
| TifTags.DirectoryRead | dash696-master/dash696.py:1050-1066 | The offsets in the header lead to the four entries written |
| TifTags.EntriesRead | dash696-master/dash696.py:1064-1076 | Applied in order they give the exposure, YUV, flags, offsets and counts written |
| TifTags.GainsRead | dash696-master/dash696.py:1078-1080 | The four gain words read back |
| TifTags.RectsRead | dash696-master/dash696.py:1083-1087 | The boxes read back are those of the coordinates written |
| TifTags.ParseInvertsWrite | dash696-master/dash696.py:1048-1088 | Parsing what was written returns the same tags and the boxes that were kept |

## Left out

- BlobStats.SingletonDescribes: `max_y` is only known to be the bottom row or the row above, because line 95 compares with `min_y`; the exact condition for one call is in `BlobStats.SingletonBottomExactIff`, for a whole pass in `Detect.DetectColorBlobs`.
- BlobLists.BlobList.constructor: failure of malloc is not modelled; the code then clears a list whose `blob_set` is NULL.
- Detect.StatsFit: sums are unbounded integers; on a platform with 32-bit `unsigned long` they fit only within the bound stated.
- CamPipeline.UsbCamera.InitMmap: a driver that grants more than MAX_BUFS buffers is excluded, because `frame` and `vbuf` have no more entries.
- CamPipeline.UsbCamera.Pop: failures of the ioctls are not modelled; the driver is a FIFO that comes to have a captured buffer, also after a select that timed out.
- CamPipeline.FramesCirculate: the loops of the two threads are a state machine over critical sections and driver calls; printing, timing and the display itself are left out; following the NULL of a failed select just ends the capture thread.
- FrameQueues.NeverBothStuck: fairness of the scheduler is not modelled; a thread that can go on is not shown to be scheduled.
- Huffman.HuffmanTable.Build: more than 162 codes are excluded, because the lookup arrays have no more entries.
- Huffman.HuffmanTable.ReadCode: the next 32 bits are a parameter; refilling them and removing stuffed 0xff bytes is left out, and so is the loop over several tables in one segment.
- BlockCoding.ReadTable: starts from symbols with their extra bits; for a DC size above 16 the code reads past the 17 entries of `mask`, where the model takes as many bits as the size says; size 0 of a DC difference stands for the value 0, because the shift in HUFF_EXTEND is undefined there. Sharpness sums are floating point.
- Clock.ClientInfo.HandleEchoTime: what sending the next request returns is a parameter; logging and the signal to waiting threads are left out; finding the client by its address is left out. The sum of round trips is an unbounded integer.
- TifTags.OverwriteTifTags: the conversion of coordinates to the video is a parameter, of which `TifTags.ToVideo` is the exact rational form; rounding in float is not modelled. Gains are 32-bit words.
- TifTags.StoreCoords: as for `TifTags.OverwriteTifTags`.
- TifTags.ParseTifTags: offsets and counts are taken as read; the byte-order mark and version are not checked, as in the code.
- The sorting, purging, copying and box-drawing helpers of the blob list only add easy members.
- `convert_rgb_to_yuv420` and the per-pixel colour formulas.
- `tcp_comms.c`, `mjpg-proxy.c`, `misc.c`, the pan and tilt commands and the web and Tk interfaces.
- The V4L2, MMAL, socket and pthread calls themselves.
