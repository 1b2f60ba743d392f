# Verification of the KCF tracker and its vision kernels

This project models the parts of the tracker in which order, aliasing or termination is
delicate, and proves what they promise.  Each module stands for one component.

- `PixelGrid`, `BorderFollowing`, `BorderGaps`, `OuterBorders`, `TracedBorders`, `OuterStarts`,
  `ContourScan`, `ContourCodes`: the border follower.  A border state is a nonzero pixel with the
  direction it was entered from.  The step on states is injective, so borders close; marks say
  truthfully what has been traced; a scan that asks for holes traces every side between a nonzero
  and a zero pixel exactly once, so it begins no contour twice and misses none, and a scan for
  outer contours traces exactly the sides that face the outside; chain codes, all points and
  corner points determine each other.
- `LinkRuns`, `LinkedContours`: the run-linking contour finder.  The three-state merge writes
  links that are a permutation of all run ends, so the readout ends and emits each end exactly
  once; `LinkedContours` says which contours are outer ones, and of which images the returned
  count is the number of contours.
- `ChainApprox`: the Teh-Chin chain approximator, passes 0 to 3, and exactly which points each
  pass leaves.
- `FramePipeline`: the four-core frame pipeline, as atomic steps of the main thread, two managers,
  two tracking cores, the DMA channel and its interrupt, for any number of frames.
- `FftService`, `ServiceCalls`, `Trackers`, `TrackerCalls`, `TrackerValues`, `EarlyDrain`: the FFT
  command service and its clients.  A client is a script of puts, waits and computations over
  named buffers whose values are terms, so that equal values were computed in the same way.  The
  class `Trackers.Tracker` takes these steps as the trackers do, and its flag tells what is
  outstanding; `FftService` proves that pipelining changes nothing as long as no drain ends early;
  `ServiceCalls` and `TrackerCalls` turn that into conditions at the calls; `TrackerValues` writes
  the tracking algorithm down as functions on terms and proves that both trackers compute it;
  `EarlyDrain` is a run that needs the conditions.
- `FftTranspose`: the DMA-transposed two-pass transforms, with the row transform left open.
- `Pyramid`, `BilinearResize`: ring-buffered pyramids and cached bilinear resizing, against the
  plain formulas.
- `HaarTree`, `SlotList`, `ResizeFactors`: the stage-tree walk, the list with its own slot
  allocator, and the fixed-point step of the hardware resizer.
- `Shared`: a few definitions and facts of arithmetic that several of these use.

Where the code does not do what one would expect, the model follows the code:

- `startHwFhog` hands on the denominator of the width even when that of the height is larger
  (`ResizeFactors.RatiosKeptExactly` has the exact condition, `WideBlock` a block that fails).
- `init` of the stand-alone tracker drains completions without waiting; if commands of the last
  sequence are still on their way the next training uses their completions
  (`EarlyDrain.WrongTransform`).  It is safe exactly if the server has none of the tracker's
  commands when `init` is called (`ServiceCalls.CallSafeExactly`,
  `TrackerCalls.TrueIfQuietAtInit`).
- `update` of a stand-alone tracker before `init` waits for ever
  (`TrackerCalls.UpdateFirstWaits`).
- The transforms from real to complex allow source and destination to be the same space but clear
  the destination first, and so transform zeros (`FftTranspose.FftManager.FftR2CT`).
- The frame pipeline built for one frame carries in a second (`FramePipeline.OwnFramesOnly`).
- `remove_head` and `remove_tail` of the list are right exactly with two elements or more, and
  `set` copies as many bytes as a pointer has (`SlotList`).
- The run-linking finder counts recorded starts, not contours.  The two agree exactly for images
  in which every connected component has one run with nothing above and one with nothing below
  (`LinkedContours.CountExact`); `TwoPeaks` is a small image without.  With no contour it returns
  -1.

Two conventions run through the modules.  Specification predicates are ghost and stand next to
the class or method they describe, and methods carry ghost parameters where the code walks a
structure whose shape only the proof knows.  `hide` statements keep definitions out of proofs
that do not need them.

## Model

| member | source | states |
|---|---|---|
| `PixelGrid.NextInjective` | DSP/c6x_emcv/cv/cvcontours.cpp:583-629 | the step from (pixel, direction it was entered from) to the next such pair is injective on all pairs of adjacent nonzero pixels, so every orbit closes |
| `PixelGrid.PrevNext` | DSP/c6x_emcv/cv/cvcontours.cpp:585-628 | turning backwards from the state a step leads to finds the state it came from: the step has an inverse |
| `PixelGrid.SweptGap` | DSP/c6x_emcv/cv/cvcontours.cpp:585-603 | a step that turns past a direction has found every neighbour between the way in and that direction zero |
| `PixelGrid.SweepDeterminesState` | DSP/c6x_emcv/cv/cvcontours.cpp:596-599 | at one pixel at most one border state turns past a given direction, so a gap belongs to one state |
| `PixelGrid.WalkIsShort` | DSP/c6x_emcv/cv/cvcontours.cpp:583-629 | a walk without repetition is no longer than the number of states, which bounds the unbounded loop |
| `PixelGrid.BordersDisjointOrEqual` | DSP/c6x_emcv/cv/cvcontours.cpp:583-629 | two closed borders that share one state have the same states |
| `PixelGrid.BorderUnique` | DSP/c6x_emcv/cv/cvcontours.cpp:583-629 | a state lies on exactly one border read from it |
| `BorderFollowing.BorderIsTheOnlyOne` | DSP/c6x_emcv/cv/cvcontours.cpp:583-629 | the border computed from a state is the only closed walk from it |
| `BorderFollowing.FindWayIn` | DSP/c6x_emcv/cv/cvcontours.cpp:558-569 | the clockwise search from the start gap ends with the first nonzero neighbour, or with none exactly for an isolated pixel |
| `BorderFollowing.FindWayOut` | DSP/c6x_emcv/cv/cvcontours.cpp:587-593 | the search for the next nonzero neighbour ends within one turn, never reads past the doubled delta table, and finds the border code |
| `BorderFollowing.RightBoundTest` | DSP/c6x_emcv/cv/cvcontours.cpp:596 | the unsigned comparison holds exactly when the step turned past the east neighbour |
| `BorderFollowing.ClosesOnlyAtEnd` | DSP/c6x_emcv/cv/cvcontours.cpp:624-628 | the closing test on the two pixels holds exactly at the last state of the border, neither earlier nor later |
| `BorderFollowing.FetchContour` | DSP/c6x_emcv/cv/cvcontours.cpp:533-643 | for every zero-framed image and valid start: the loop ends, the zero pixels are unchanged, every pixel has exactly the mark the border gives it, and the contour and rectangle recorded are those of the border |
| `BorderFollowing.FetchBorder` | DSP/c6x_emcv/cv/cvcontours.cpp:715-822 | marks, recorded points or codes, and a rectangle that is updated only at turns but is the bounding box of all points visited |
| `BorderFollowing.MarkMeaning` | DSP/c6x_emcv/cv/cvcontours.cpp:596-603 | after a trace a pixel is negative exactly if a step turned past its east neighbour there, is nbd exactly if it was 1 and only visited, and is otherwise unchanged |
| `BorderFollowing.MarkKeepsZero` | DSP/c6x_emcv/cv/cvcontours.cpp:596-603 | marking never turns a nonzero pixel to zero or back |
| `BorderFollowing.StartSweepsGap` | DSP/c6x_emcv/cv/cvcontours.cpp:558-580 | the border traced from a start turns past the very gap the scan found |
| `BorderFollowing.BorderPoints` | DSP/c6x_emcv/cv/cvcontours.cpp:605-622 | walking the codes of a border from its origin visits its pixels in order and returns to the origin |
| `BorderFollowing.LastCode` | DSP/c6x_emcv/cv/cvcontours.cpp:580 | the code the writer starts out comparing with is the last code of the closed border |
| `BorderFollowing.EncodingsAgree` | DSP/c6x_emcv/cv/cvcontours.cpp:605-622 | for every border: codes return to the origin, and expanding the corner points along straight runs gives back all points cyclically |
| `BorderFollowing.TraceContour` | DSP/c6x_emcv/cv/cvcontours.cpp:652-701 | the trace ends for every start, and answers yes exactly when the stop pixel is the start or lies on that border |
| `ContourCodes.ChainReader.ReadPoint` | DSP/c6x_emcv/cv/cvcontours.cpp:88-124 | hands out the current point and code and moves on by exactly that code |
| `ContourCodes.RestorePoints` | DSP/c6x_emcv/cv/cvapprox.cpp:119-147 | pass 0 of the approximator yields all points of the chain, or with SIMPLE exactly the points the direct SIMPLE trace writes; the curvature of a point is the number of eighths, 0 to 4, by which the chain turns there to either side |
| `ContourCodes.DiffIsBend` | DSP/c6x_emcv/cv/cvapprox.cpp:68 | the table of differences of codes holds exactly that number |
| `ContourCodes.SimpleRoundTrip` | DSP/c6x_emcv/cv/cvcontours.cpp:613-617 | for every closed chain: the corner points expanded along straight eight-direction runs are the points of the chain, from the first corner once around |
| `ContourCodes.ClosedTurns` | DSP/c6x_emcv/cv/cvapprox.cpp:159 | every closed chain turns somewhere, so the corner list is never empty |
| `ContourCodes.CornersAre` | DSP/c6x_emcv/cv/cvcontours.cpp:613-617 | the corner positions are, in order, exactly those where the code changes, the first compared with the last |
| `ContourCodes.CornersBoundAll` | DSP/c6x_emcv/cv/cvcontours.cpp:793-819 | bounds that hold at the turning points and the origin of a closed chain hold at all its points |
| `ContourScan.PrepareImage` | DSP/c6x_emcv/cv/cvcontours.cpp:313-323 | thresholding and clearing the frame leave 1 exactly at the positive pixels inside the frame |
| `ContourScan.NextMark` | DSP/c6x_emcv/cv/cvcontours.cpp:1003-1005 | marks stay between 2 and 127; 127 is followed by 3 |
| `ContourScan.ContourScanner.Classify` | DSP/c6x_emcv/cv/cvcontours.cpp:878-905 | the scan starts a contour only at an outer start or hole gap whose pixel has a mark that says it is new; in mode 0 only at one that faces the outside of the image, and at a pixel it passes over every west side that faces the outside has been traced |
| `TracedBorders.MarksStayTrue` | DSP/c6x_emcv/cv/cvcontours.cpp:569-603 | tracing one more contour keeps true what marks say: negative pixels are exactly those some trace turned past to the east, pixels above 1 those visited |
| `TracedBorders.LooksNewIsNew` | DSP/c6x_emcv/cv/cvcontours.cpp:888-902 | a start that looks new by its mark shares no border state with any contour traced before |
| `TracedBorders.NewStart` | DSP/c6x_emcv/cv/cvcontours.cpp:888-902 | so the contours of a scan stay pairwise apart: none is begun twice |
| `TracedBorders.PassedByOne` | DSP/c6x_emcv/cv/cvcontours.cpp:888-905 | no side of a pixel, east or other, is passed by two contours of a scan |
| `BorderGaps.StepOn` | DSP/c6x_emcv/cv/cvcontours.cpp:583-629 | a border that passes a side whose next neighbour is nonzero moves on to that neighbour and there passes the side next to its way in |
| `BorderGaps.StepBackOn` | DSP/c6x_emcv/cv/cvcontours.cpp:583-629 | the same backwards: it came from the neighbour in front of the side and passed the side next to the way out there |
| `BorderGaps.AnyToWest` | DSP/c6x_emcv/cv/cvcontours.cpp:596-603 | a border that passes a north, south or east side, but no east side in front of the last inner column, passes a west side |
| `BorderGaps.OutlineOf` | DSP/c6x_emcv/cv/cvcontours.cpp:881-890 | such a border has a west side with nothing above it, from which west sides go down row by row with no gap between them that anything leads through, to one with nothing below |
| `BorderGaps.BorderWithin` | DSP/c6x_emcv/cv/cvcontours.cpp:583-629 | a border that enters the part of the image right of such an outline has lain in it from its first pixel on |
| `TracedBorders.EveryGapTraced` | DSP/c6x_emcv/cv/cvcontours.cpp:838-1078 | once the scan has passed the last row, every zero neighbour to the north, east, south or west of any nonzero pixel lies on the border of some contour |
| `TracedBorders.GapOnExactlyOneContour` | DSP/c6x_emcv/cv/cvcontours.cpp:838-1078 | after a whole scan every side of every nonzero pixel that faces a zero pixel, in any of the four directions and any column, lies on exactly one of the contours |
| `OuterBorders.FacesNext` | DSP/c6x_emcv/cv/cvcontours.cpp:583-629 | if all that one border state turns past is joined to the frame through zero pixels, the same holds of the next state |
| `OuterBorders.PassedOutside` | DSP/c6x_emcv/cv/cvcontours.cpp:583-629 | so all sides that a border passes face the outside if its first one does |
| `OuterBorders.AroundCorner` | DSP/c6x_emcv/cv/cvcontours.cpp:583-629 | around a corner of four pixels a border comes in as often as it goes out |
| `OuterBorders.WindAcross` | DSP/c6x_emcv/cv/cvcontours.cpp:583-629 | how often a border winds around a pixel changes by one across a side it passes, and does not change across any other |
| `OuterBorders.WindOutside` | DSP/c6x_emcv/cv/cvcontours.cpp:583-629 | no border winds around a pixel of the outside |
| `OuterBorders.SameFace` | DSP/c6x_emcv/cv/cvcontours.cpp:583-629 | a border that passes one side of a pixel that faces the outside passes every such side of it |
| `OuterBorders.OneOuterBorder` | DSP/c6x_emcv/cv/cvcontours.cpp:583-629 | and every such side of every pixel of the same 8-connected component |
| `OuterStarts.MarkMoves` | DSP/c6x_emcv/cv/cvcontours.cpp:1056-1062 | the position the scan remembers is the first of the equal values that end with the last marked pixel of the row |
| `OuterStarts.MarkDecides` | DSP/c6x_emcv/cv/cvcontours.cpp:901 | the value there is positive exactly if the zero pixel in front of the scan position is not joined to the frame: the test for outer contours is right |
| `OuterStarts.OuterGapTraced` | DSP/c6x_emcv/cv/cvcontours.cpp:881-905 | in the part scanned every side that faces the outside, in any direction, has been traced |
| `OuterStarts.VisitedIsCovered` | DSP/c6x_emcv/cv/cvcontours.cpp:888-902 | a start that is skipped because its pixel was visited needs no contour: the one that visited it passes its west side too |
| `OuterStarts.OuterScanFinds` | DSP/c6x_emcv/cv/cvcontours.cpp:838-1078 | after a whole scan in mode 0: every start is an outer one beside the outside, sides that face the outside lie on exactly one contour, all other sides on none, and no component has two contours |
| `ContourScan.ContourScanner.FindNextContour` | DSP/c6x_emcv/cv/cvcontours.cpp:838-1078 | each call moves on in raster order, appends exactly the start it found, records that border and keeps the foreground; when nothing more is found every gap of the image lies on exactly one contour, or in mode 0 every gap that faces the outside and none of the others |
| `ContourScan.FindContours` | DSP/c6x_emcv/cv/cvcontours.cpp:1513-1560 | over a whole scan of any image: starts valid and pairwise apart, all contours recorded in order and counted, foreground unchanged; every gap of the image lies on exactly one of the contours, or in mode 0 every gap that faces the outside and none of the others, one contour a component |
| `LinkRuns.FindRuns` | DSP/c6x_emcv/cv/cvcontours.cpp:1259-1278 | the runs of a row are found exactly: maximal, in order, left and right ends |
| `LinkRuns.RunLinker.MergeLines` | DSP/c6x_emcv/cv/cvcontours.cpp:1285-1413 | the three-state merge of two run lists links every left end below and right end above by the exact local rule, one to one |
| `LinkRuns.RunLinker.StepSingle` | DSP/c6x_emcv/cv/cvcontours.cpp:1293-1324 | one step outside a connection keeps position, pairing and rule |
| `LinkRuns.RunLinker.StepAbove` | DSP/c6x_emcv/cv/cvcontours.cpp:1325-1350 | one step while the last end is above keeps position, pairing and rule |
| `LinkRuns.RunLinker.StepBelow` | DSP/c6x_emcv/cv/cvcontours.cpp:1351-1381 | one step while the last end is below keeps position, pairing and rule, and records the start between two lower runs as that of a hole |
| `LinkRuns.RunLinker.FinishLower` | DSP/c6x_emcv/cv/cvcontours.cpp:1383-1398 | the rest of the lower row is linked by the rule |
| `LinkRuns.RunLinker.FinishUpper` | DSP/c6x_emcv/cv/cvcontours.cpp:1400-1410 | the rest of the upper row is linked by the rule |
| `LinkRuns.MatchOneMore` | DSP/c6x_emcv/cv/cvcontours.cpp:1285-1413 | one more link between a free source and a free target keeps the links a bijection |
| `LinkRuns.MatchedIsPermutation` | DSP/c6x_emcv/cv/cvcontours.cpp:1418-1424 | after the last row the links are a permutation of all run ends |
| `LinkRuns.RunLinker.LinkImage` | DSP/c6x_emcv/cv/cvcontours.cpp:1218-1424 | for every image: links are a permutation of all run ends, follow the local rule between every two rows, and every link from a left to a right end is recorded: within one run as an outer start, between two runs as a hole start |
| `LinkRuns.LeftReachesStart` | DSP/c6x_emcv/cv/cvcontours.cpp:1312-1317 | a set of ends closed under the links that holds a left end holds a recorded start |
| `LinkRuns.ReachesStart` | DSP/c6x_emcv/cv/cvcontours.cpp:1383-1394 | every set of ends closed under the links holds a recorded start, so every cycle is read |
| `LinkRuns.ChainExtends` | DSP/c6x_emcv/cv/cvcontours.cpp:1451-1458 | following links without repetition either meets a new end or closes at its start |
| `LinkRuns.RestWithout` | DSP/c6x_emcv/cv/cvcontours.cpp:1451-1458 | taking a whole cycle out of a permutation leaves a permutation of the rest |
| `LinkRuns.RunLinker.ReadContour` | DSP/c6x_emcv/cv/cvcontours.cpp:1444-1460 | the readout loop ends and takes out exactly the cycle of its start |
| `LinkRuns.RunLinker.ReadAll` | DSP/c6x_emcv/cv/cvcontours.cpp:1430-1475 | every run end is emitted exactly once, in exactly one contour that is a whole cycle of the links; the first ones begin at outer starts, the others hold none and begin at hole starts; what is counted are the recorded starts |
| `LinkRuns.ContourInOneComponent` | DSP/c6x_emcv/cv/cvcontours.cpp:1285-1413 | a contour never leaves the connected component it starts in: any labelling that touching runs share is constant along it |
| `LinkRuns.Polygons` | DSP/c6x_emcv/cv/cvcontours.cpp:1444-1460 | the points written are those of the run ends, in order |
| `LinkedContours.NoCrossing` | DSP/c6x_emcv/cv/cvcontours.cpp:1285-1413 | pairs of meeting runs of two neighbouring rows do not cross |
| `LinkedContours.RuleIsLinked` | DSP/c6x_emcv/cv/cvcontours.cpp:1285-1413 | the local rule of the merge, seen from the image: a left end leads to the leftmost run above, or turns over above the run or in a gap under a common run; a right end likewise downwards |
| `LinkedContours.TopLoop` | DSP/c6x_emcv/cv/cvcontours.cpp:1293-1324 | if components have single ends, the contour that turns over above the topmost run comes back to that same turn |
| `LinkedContours.GapLoop` | DSP/c6x_emcv/cv/cvcontours.cpp:1351-1381 | and one that turns over in a gap comes back to that same gap |
| `LinkedContours.TurnsOnce` | DSP/c6x_emcv/cv/cvcontours.cpp:1430-1460 | so then every contour holds one recorded start |
| `LinkedContours.OuterBounds` | DSP/c6x_emcv/cv/cvcontours.cpp:1430-1460 | a contour that turns over once, above a run with nothing above, encloses its component: no other run of it is as high as the first or as low as the last |
| `LinkedContours.CountExact` | DSP/c6x_emcv/cv/cvcontours.cpp:1430-1475 | for every image: some contour holds two recorded starts exactly if some connected component has two runs with nothing above or two with nothing below |
| `LinkedContours.TwoPeaks` | DSP/c6x_emcv/cv/cvcontours.cpp:1430-1475 | an image that fails this: two pixels on top of a line of three |
| `LinkedContours.StartsAreOf` | DSP/c6x_emcv/cv/cvcontours.cpp:1312-1317 | outer starts are exactly the left ends at which a contour turns over above its run, hole starts exactly those at which it turns in a gap |
| `LinkedContours.OuterOrInner` | DSP/c6x_emcv/cv/cvcontours.cpp:1430-1475 | for every image: a contour read from an outer start turns over above a run with nothing above it; one read from a hole start has a turn in a gap and none above a run |
| `LinkedContours.OuterComeFirst` | DSP/c6x_emcv/cv/cvcontours.cpp:1430-1475 | if components have single ends, the first contours are exactly one enclosing contour for each component, which runs around all its runs, and the others lie in gaps |
| `LinkedContours.FindContoursInInterval` | DSP/c6x_emcv/cv/cvcontours.cpp:1138-1490 | the whole algorithm on any image of at least one row: rule, exactly-once readout, cycles, polygons; outer contours first and hole contours after them; the returned count is the number of contours exactly if there is a run and every connected component has one run with nothing above and one with nothing below, and then the outer ones are one enclosing contour a component |
| `ChainApprox.ChordSymmetric` | DSP/c6x_emcv/cv/cvapprox.cpp:180-191 | the chord over k points and over the rest of the closed chain is the same |
| `ChainApprox.StopsHalfWay` | DSP/c6x_emcv/cv/cvapprox.cpp:193-203 | half way around at the latest the search stops |
| `ChainApprox.Approximator.constructor` | DSP/c6x_emcv/cv/cvapprox.cpp:119-159 | pass 0 links exactly the turning points, in increasing order, with the bend as their curvature |
| `ChainApprox.Approximator.SupportRegion` | DSP/c6x_emcv/cv/cvapprox.cpp:173-209 | the support search ends for every chain of two points or more, at the first k that meets the test, with all wrapped indices in range; the region is 1 or reaches less than half around |
| `ChainApprox.Approximator.KCosine` | DSP/c6x_emcv/cv/cvapprox.cpp:212-245 | the cosine curvature is the top of the rising series that begins at the end of the support region, and 0 where an end of the region is the point itself |
| `ChainApprox.Approximator.FindSupport` | DSP/c6x_emcv/cv/cvapprox.cpp:163-250 | pass 1 visits every linked point once and leaves the list alone |
| `ChainApprox.Approximator.IsDominated` | DSP/c6x_emcv/cv/cvapprox.cpp:257-274 | the neighbourhood test is true exactly if some point within half the region has more curvature |
| `ChainApprox.Approximator.Unlink` | DSP/c6x_emcv/cv/cvapprox.cpp:276-284 | unlinking in place while walking removes exactly that point from the list |
| `ChainApprox.Approximator.SuppressNonMaxima` | DSP/c6x_emcv/cv/cvapprox.cpp:252-288 | pass 2 keeps each point exactly if, when its turn comes, none within half its support region has more curvature; the one of most curvature stays |
| `ChainApprox.NoneDominated` | DSP/c6x_emcv/cv/cvapprox.cpp:252-288 | after pass 2 no point that is left has more curvature within half its region |
| `ChainApprox.DroppedWasDominated` | DSP/c6x_emcv/cv/cvapprox.cpp:252-288 | every point pass 2 drops had more curvature within half its region to begin with |
| `ChainApprox.Approximator.DropShortRegions` | DSP/c6x_emcv/cv/cvapprox.cpp:290-327 | pass 3 drops each point exactly if, when its turn comes, its region is 1 and it does not exceed both neighbours; it leaves some exactly when a point has curvature or a region longer than 1 |
| `ChainApprox.ShortLeft` | DSP/c6x_emcv/cv/cvapprox.cpp:290-327 | after pass 3 every point of region 1 that is left exceeds both neighbours, and every point dropped was of region 1 and did not |
| `ChainApprox.NextPeak` | DSP/c6x_emcv/cv/cvapprox.cpp:302-320 | when a peak is dropped one of its neighbours is a peak still linked |
| `ChainApprox.Approximate` | DSP/c6x_emcv/cv/cvapprox.cpp:54-327 | for every closed chain and either method: support regions, curvature values, what pass 2 keeps of the corners and pass 3 of those; the points written are what is left, in order, and at least one |
| `FramePipeline.RxBufManager.FlipIndex` | DSP/Kcf_Core0/include/CRxBufManager.h:57-65 | called as the transfer interrupt does: a manager that names the buffers of the pipeline names them after the interrupt too, and its work buffer is then the one that holds the frame just delivered |
| `FramePipeline.StepKeepsInv` | DSP/Kcf_Core0/src/main.cpp:119-158 | every step of every thread, the DMA and the interrupt keeps the invariant of the pipeline |
| `FramePipeline.MovedKeeps` | DSP/Kcf_Core0/src/main.cpp:231-267 | every step of a manager or its core keeps that side in order |
| `FramePipeline.HeldFrame` | DSP/Kcf_Core0/src/main.cpp:231-249 | the message a core holds or is being sent names a buffer that holds the right frame and is not being written |
| `FramePipeline.RunIsSafe` | DSP/Kcf_Core0/src/main.cpp:119-267 | in every reachable state of every interleaving, for any number of frames from two on: no core holds the buffer the DMA writes, each core has seen frames 0, 1, 2, ... once each in order, whole, initialised with frame 0 only |
| `FramePipeline.NothingOverrun` | DSP/Kcf_Core0/src/main.cpp:126-187 | a start flag is never raised while up, a transfer never started while one runs, no semaphore passes 1, no frame beyond the last is carried |
| `FramePipeline.OwnFramesOnly` | DSP/Kcf_Core0/src/main.cpp:119-158 | only existing frames are ever carried in, exactly when the program is built for two frames or more |
| `FramePipeline.SingleFrameOverruns` | DSP/Kcf_Core0/src/main.cpp:137-157 | with one frame a run exists that starts to carry a second one |
| `FramePipeline.StepLowersRank` | DSP/Kcf_Core0/src/main.cpp:119-283 | every step lowers a measure, so no run goes on for ever |
| `FramePipeline.RunsAreShort` | DSP/Kcf_Core0/src/main.cpp:119-283 | a run has at most as many steps as the measure of the initial state |
| `FramePipeline.StuckMeansEnded` | DSP/Kcf_Core0/src/main.cpp:249-283 | a reachable state in which nothing can happen is the end: no deadlock |
| `FramePipeline.MaximalRunsComplete` | DSP/Kcf_Core0/src/main.cpp:119-283 | every run that cannot be extended has ended with all frames processed by both cores in order |
| `FftService.StepKeepsInv` | DSP/Kcf_Core3/src/FFTTask.cpp:52-109 | every step of a client, the server, a notification or a callback keeps the invariant, for any disciplined scripts |
| `FftService.SettledCommutes` | DSP/Kcf_Common/CKcfTracker.cpp:324-341 | a client may write a buffer no command uses before or after the queued commands, with the same memory in the end |
| `FftService.ReadsAreSequential` | DSP/Kcf_Common/CKcfTracker.cpp:287-338 | under any interleaving of two clients with priorities, a client that computes reads exactly what it would read had every command been carried out when it was put |
| `FftService.CompletionsInOrder` | DSP/Kcf_Core3/src/FFTTask.cpp:97-108 | the completions not waited for belong to the oldest commands; the rest is queued or in service, in order |
| `FftService.WaitedMeansQuiet` | DSP/Kcf_Common/CKcfTracker.cpp:719-748 | where a script has waited for all commands the server has none, the semaphore is 0 and the memory is the sequential one |
| `FftService.NothingReusedEarly` | DSP/Kcf_SA/src/CKcfTracker.cpp:637-645 | a command record is filled in, and a buffer or record goes out of scope, only when no command queued or in service uses it |
| `ServiceCalls.HighPriorityFirst` | DSP/Kcf_Common/CKcfTracker.cpp:294-302 | a queued command of core 1 waits, besides the one in service, only for those of core 1 in front of it: until then no command of core 2 is taken |
| `FftService.DrainExact` | DSP/Kcf_SA/src/CKcfTracker.cpp:1029 | a drain ends with nothing outstanding exactly when the server is quiet for that client at that moment |
| `ServiceCalls.CallSafeExactly` | DSP/Kcf_SA/src/CKcfTracker.cpp:1029-1030 | seen from the call of init: every way from there to the end of its drain is calm if and only if the server is quiet for the client at the call |
| `ServiceCalls.BusyCallLosesCount` | DSP/Kcf_SA/src/CKcfTracker.cpp:1029-1030 | from any call at which it is not, the client can get past the drain with its commands still under way and counts none of them as outstanding |
| `ServiceCalls.QuietRunIsCalm` | DSP/Kcf_SA/src/CKcfTracker.cpp:1029-1030 | a run in which the server is quiet for the client whenever init is called is calm throughout |
| `ServiceCalls.NeverPast` | DSP/Kcf_Core3/src/FFTTask.cpp:52-109 | a client whose script comes to a wait with nothing outstanding gets past it in no run, whatever the other client does |
| `ServiceCalls.EndsWaiting` | DSP/Kcf_Core3/src/FFTTask.cpp:52-109 | and every run that cannot be extended has it standing there |
| `FftService.StepLowersRank` | DSP/Kcf_Core3/src/FFTTask.cpp:52-109 | every step lowers a measure |
| `FftService.StuckMeansEnded` | DSP/Kcf_Core3/src/FFTTask.cpp:52-109 | no client waits for ever: if nothing can happen both scripts are at their end |
| `FftService.MaximalRunsComplete` | DSP/Kcf_Core3/src/FFTTask.cpp:52-109 | every calm run that cannot be extended has carried out both scripts with the sequential result |
| `Trackers.Tracker.GaussCrossCorrelation` | DSP/Kcf_SA/src/CKcfTracker.cpp:717-826 | takes the steps of its script; called with a truthful flag, up or down, it leaves the flag up, truthfully: nothing outstanding, template transforms and energy in place |
| `Trackers.Tracker.Train` | DSP/Kcf_SA/src/CKcfTracker.cpp:833-913 | called with nothing outstanding, it lowers the flag truthfully: in the stand-alone variant the commands of the new template are outstanding, in the other none |
| `Trackers.Tracker.Initialise` | DSP/Kcf_SA/src/CKcfTracker.cpp:1008-1034 | from any state between calls to a state between calls: the flag is down, and true of what is outstanding |
| `Trackers.Tracker.UpdateWith` | DSP/Kcf_SA/src/CKcfTracker.cpp:1036-1189 | keeps the flag true between calls, in any but a stand-alone tracker with channels that has not been initialised |
| `Trackers.Track` | DSP/Kcf_Common/CKcfTracker.cpp:719-834 | a tracker that is called any number of times takes the steps of its program, and if it is initialised before it is updated keeps the discipline of the service and ends with a truthful flag |
| `Trackers.FlagTells` | DSP/Kcf_SA/src/CKcfTracker.cpp:751-766 | a truthful flag is up exactly if no template command is outstanding, and down exactly if one per channel is |
| `Trackers.LeadsAuto` | DSP/Kcf_SA/src/CKcfTracker.cpp:622-707 | from nothing outstanding the auto-correlation leads to nothing outstanding, touching only its own buffers |
| `Trackers.LeadsDetect` | DSP/Kcf_Common/CKcfTracker.cpp:614-717 | detection from a truthful flag leads to one that is up, touching only its own buffers |
| `Trackers.LeadsInit` | DSP/Kcf_SA/src/CKcfTracker.cpp:1008-1034 | init leads from any state between calls to one |
| `Trackers.LeadsCross` | DSP/Kcf_SA/src/CKcfTracker.cpp:717-826 | from a template on its way, or in place with the flag up, the cross-correlation waits for exactly its own commands and ends with nothing outstanding and the template transform and energy in place |
| `Trackers.LeadsTrain` | DSP/Kcf_SA/src/CKcfTracker.cpp:833-913 | training ends with exactly the commands of the new template outstanding, or in the multi-core variant with none |
| `Trackers.DisciplinedExactly` | DSP/Kcf_SA/src/CKcfTracker.cpp:751-766 | a program of calls keeps the discipline exactly when a stand-alone tracker with channels is initialised before its first update |
| `TrackerCalls.UpdateFirstWaits` | DSP/Kcf_SA/src/CKcfTracker.cpp:751-766 | updated first, a stand-alone tracker with channels never gets past its first wait for a product, in any run, and every run that cannot be extended ends there |
| `TrackerCalls.TrueIfQuietAtInit` | DSP/Kcf_SA/src/CKcfTracker.cpp:1029-1030 | the transforms and energies of the stand-alone tracker are current wherever they are used, in every run in which the server is quiet for it whenever init is called |
| `TrackerCalls.TwoTrackersAreCalm` | DSP/Kcf_Common/CKcfTracker.cpp:719-834 | every run of two multi-core trackers is calm, with no condition |
| `TrackerValues.MakesAuto` | DSP/Kcf_SA/src/CKcfTracker.cpp:622-707 | the auto-correlation leaves the exponential of the inverse transform of the sum that adds the square of each channel once, in order, and of the energy of the features |
| `TrackerValues.MakesCross` | DSP/Kcf_SA/src/CKcfTracker.cpp:774-826 | the cross-correlation leaves that of the sum of one product for each channel, template with features, and of both energies |
| `TrackerValues.MakesTrain` | DSP/Kcf_SA/src/CKcfTracker.cpp:833-913 | training blends the quotient of peak and transformed kernel into the coefficients, and every channel of the features into the same channel of the template |
| `TrackerValues.MakesLook` | DSP/Kcf_Common/CKcfTracker.cpp:614-717 | a look at a frame finds the peak of the response of the coefficients to the kernel of template and features, and compares it with the best so far |
| `TrackerValues.UpdateIs` | DSP/Kcf_SA/src/CKcfTracker.cpp:1036-1189 | a whole update: region, coefficients and each template channel as terms of those before it |
| `TrackerValues.ProgramComputes` | DSP/Kcf_Common/CKcfTracker.cpp:719-834 | any sequence of calls of either tracker leaves in memory what the algorithm without buffers, commands and flags says, if a stand-alone one with channels is initialised first |
| `TrackerValues.CallsCompute` | DSP/Kcf_Common/CKcfTracker.cpp:719-834 | and so does every calm run on the service whenever a call has returned, whatever the other client does |
| `TrackerValues.TwoTrackersCompute` | DSP/Kcf_Common/CKcfTracker.cpp:719-834 | two multi-core trackers on one server, in any interleaving, compute each as if it were alone |
| `TrackerValues.StandaloneComputes` | DSP/Kcf_SA/src/CKcfTracker.cpp:1008-1189 | a stand-alone tracker does in every run in which the server is quiet for it whenever init is called |
| `Trackers.TemplateIsTrue` | DSP/Kcf_SA/src/CKcfTracker.cpp:774-818 | in every run, at every multiplication the template transform and the feature transform are those of the current template and features, and at the exponential both energies are current |
| `Trackers.OnReturn` | DSP/Kcf_Common/CKcfTracker.cpp:719-834 | whenever a call returns the multi-core tracker has nothing outstanding; the stand-alone one has exactly its template transforms, one per channel |
| `Trackers.TwoTrackers` | DSP/Kcf_Common/CKcfTracker.cpp:719-834 | any two multi-core call sequences may share the server |
| `EarlyDrain.WrongTransform` | DSP/Kcf_SA/src/CKcfTracker.cpp:1029-1030 | a concrete run of two sequences in which the drain ends too early and the next training multiplies with the old transform |
| `EarlyDrain.Reach` | DSP/Kcf_SA/src/FFTTask.cpp:26-73 | any point of a disciplined script can be reached with the server idle |
| `FftTranspose.Transfer` | DSP/Kcf_SA/src/CFftManager.cpp:136-144 | an AB-synchronised parameter block copies every element to its place and touches nothing else |
| `FftTranspose.TransposingScatters` | DSP/Kcf_SA/src/CFftManager.cpp:221-229 | the transposing blocks give every element a destination of its own, for every width and height |
| `FftTranspose.CopyTransposed` | DSP/Kcf_SA/src/CFftManager.cpp:389-395 | rows become columns: the entry at each place comes from the transposed place |
| `FftTranspose.RowColumn` | DSP/Kcf_SA/src/FFTTask.cpp:33-67 | two passes are the two-dimensional transform in the original orientation: each entry is that of the transform of a column of transformed rows |
| `FftTranspose.CrossedParts` | DSP/Kcf_SA/src/CFftManager.cpp:363-424 | the interleaved layout has the real part at even places and the imaginary part behind it |
| `FftTranspose.SwappedParts` | DSP/Kcf_SA/src/CFftManager.cpp:292-329 | the exchanged layout has the imaginary part at even places and the real part behind it |
| `FftTranspose.SplitParts` | DSP/Kcf_SA/src/CFftManager.cpp:163-174 | the split layout has real and imaginary parts in two arrays |
| `FftTranspose.RealPartsAre` | DSP/Kcf_SA/src/CFftManager.cpp:488-549 | what the last inverse pass keeps are the real parts |
| `FftTranspose.FftManager.FftR2RT` | DSP/Kcf_SA/src/CFftManager.cpp:110-193 | one split pass, imaginary parts kept in the temporary buffer, also in place |
| `FftTranspose.FftManager.FftR2CT` | DSP/Kcf_SA/src/CFftManager.cpp:195-277 | one pass from real rows to interleaved columns; in one and the same space, which is cleared first, it transforms zeros |
| `FftTranspose.FftManager.FftC2CT` | DSP/Kcf_SA/src/CFftManager.cpp:279-361 | one pass in place with real and imaginary parts exchanged |
| `FftTranspose.FftManager.FftC2CTN` | DSP/Kcf_SA/src/CFftManager.cpp:363-424 | one pass in place with real and imaginary parts in their own places |
| `FftTranspose.FftManager.IfftC2CT` | DSP/Kcf_SA/src/CFftManager.cpp:426-486 | one inverse pass |
| `FftTranspose.FftManager.IfftC2RT` | DSP/Kcf_SA/src/CFftManager.cpp:488-549 | one inverse pass that keeps real parts only |
| `FftTranspose.FftManager.Fft2dR2R` | DSP/Kcf_SA/src/FFTTask.cpp:35-43 | the real parts of the two-dimensional transform, for every size that fits |
| `FftTranspose.FftManager.Fft2dR2C` | DSP/Kcf_SA/src/FFTTask.cpp:44-51 | the two-dimensional transform, imaginary part first; of zeros if source and destination are the same space |
| `FftTranspose.FftManager.Fft2dR2CN` | DSP/Kcf_SA/src/FFTTask.cpp:52-59 | the two-dimensional transform, real part first; of zeros if source and destination are the same space |
| `FftTranspose.FftManager.Ifft2dC2R` | DSP/Kcf_SA/src/FFTTask.cpp:60-67 | the real parts of the inverse transform; the source is left with its first pass |
| `Pyramid.TapsAreBinomial` | DSP/c6x_emcv/cv/cvpyramids.cpp:53-55 | the weights of the filter are the binomial coefficients of four |
| `Pyramid.DownRowCases` | DSP/c6x_emcv/cv/cvpyramids.cpp:55-74 | the border formulas are the 1-4-6-4-1 filter mirrored at the border |
| `Pyramid.DownCases` | DSP/c6x_emcv/cv/cvpyramids.cpp:178-211 | the same in the vertical |
| `Pyramid.FilterRowDown` | DSP/c6x_emcv/cv/cvpyramids.cpp:119-174 | a source row is filtered into its slot, other slots unchanged |
| `Pyramid.FillDown` | DSP/c6x_emcv/cv/cvpyramids.cpp:119-174 | the ring then holds every source row the window needs, each in its slot |
| `Pyramid.PyrDown` | DSP/c6x_emcv/cv/cvpyramids.cpp:83-217 | for every even size and one or three channels: every place of the result is the rounded direct filter, and is a byte |
| `Pyramid.UpRowCases` | DSP/c6x_emcv/cv/cvpyramids.cpp:236-270 | the up-sampling formulas are the same filter over the row with zeros between its pixels, mirrored |
| `Pyramid.UpCases` | DSP/c6x_emcv/cv/cvpyramids.cpp:387-424 | the same in the vertical |
| `Pyramid.PyrUp` | DSP/c6x_emcv/cv/cvpyramids.cpp:281-429 | for every size and one or three channels: every place of the result is the rounded direct filter over the spread image, and is a byte |
| `Pyramid.DownIsByte` | DSP/c6x_emcv/cv/cvpyramids.cpp:76 | the rounded filter value of bytes is a byte |
| `BilinearResize.BuildColumns` | DSP/c6x_emcv/cv/cvimgwarp.cpp:830-861 | every index is in the source, and up to xmax so is its successor; behind it only the last pixel is used |
| `BilinearResize.BuildRows` | DSP/c6x_emcv/cv/cvimgwarp.cpp:863-886 | every row index is in the source and every weight between 0 and 1 |
| `BilinearResize.ColumnExactly` | DSP/c6x_emcv/cv/cvimgwarp.cpp:834-861 | in integers: a column whose centre is in front of the first pixel, or at the last or behind it, gets that pixel alone; any other the pixel its centre lies in, and the rest of the way to the next, to the nearest of 1024 parts |
| `BilinearResize.RowExactly` | DSP/c6x_emcv/cv/cvimgwarp.cpp:863-886 | the same for rows |
| `BilinearResize.Refresh` | DSP/c6x_emcv/cv/cvimgwarp.cpp:231-266 | whatever rows the two buffers held, after swapping, reusing or refilling they hold the two rows needed |
| `BilinearResize.Kernel` | DSP/c6x_emcv/cv/cvimgwarp.cpp:218-277 | every pixel is the formula with both rows filtered afresh |
| `BilinearResize.PixelBetween` | DSP/c6x_emcv/cv/cvimgwarp.cpp:268-274 | a pixel lies between the least and the greatest of its source samples |
| `BilinearResize.Resize` | DSP/c6x_emcv/cv/cvimgwarp.cpp:818-892 | for every source and destination size and any number of channels: every place is the rounded weighted mean of the same channel of its four neighbours, and is a byte |
| `BilinearResize.RampKept` | DSP/c6x_emcv/cv/cvimgwarp.cpp:218-277 | a linear ramp is reproduced: every place gets its value at the centre of the place, to half a unit and half a part in 1024 of the slopes |
| `BilinearResize.OnPixel` | DSP/c6x_emcv/cv/cvimgwarp.cpp:218-277 | a place whose centre falls on a source pixel gets that pixel |
| `HaarTree.AcceptsExactly` | DSP/c6x_emcv/cv/cvhaar.cpp:635-668 | accepting means that some path from a root to a leaf passes at every stage |
| `HaarTree.NextInTree` | DSP/c6x_emcv/cv/cvhaar.cpp:660-666 | from a failed stage the climb reaches the next sibling of the nearest ancestor that has one, or the end of the forest |
| `HaarTree.Run` | DSP/c6x_emcv/cv/cvhaar.cpp:635-668 | on every well-formed stage forest the walk ends, accepts exactly when a path passes throughout, and evaluates no stage twice |
| `SlotList.List.InsertNew` | DSP/c6x_emcv/cv/_cvlist.h:118-146 | the slot handed out is neither live nor free, the live elements are as they were |
| `SlotList.List.InsertFree` | DSP/c6x_emcv/cv/_cvlist.h:149-155 | a removed element goes to the front of the free list |
| `SlotList.List.AddHead` | DSP/c6x_emcv/cv/_cvlist.h:231-248 | the element is put in front; contents and links, both ways |
| `SlotList.List.AddTail` | DSP/c6x_emcv/cv/_cvlist.h:249-266 | the element is put at the end |
| `SlotList.List.InsertAfter` | DSP/c6x_emcv/cv/_cvlist.h:289-306 | the element is put behind a given one |
| `SlotList.List.InsertBefore` | DSP/c6x_emcv/cv/_cvlist.h:307-324 | the element is put in front of a given one |
| `SlotList.List.RemoveAt` | DSP/c6x_emcv/cv/_cvlist.h:325-346 | the element is removed, at either end or in between |
| `SlotList.List.RemoveHead` | DSP/c6x_emcv/cv/_cvlist.h:267-277 | removes the first of two or more; of a single element it leaves a list that represents no sequence |
| `SlotList.List.RemoveTail` | DSP/c6x_emcv/cv/_cvlist.h:278-288 | removes the last of two or more; of a single element it leaves a list that represents no sequence |
| `SlotList.List.Clear` | DSP/c6x_emcv/cv/_cvlist.h:224-230 | the list is empty and usable again |
| `SlotList.List.Set` | DSP/c6x_emcv/cv/_cvlist.h:347-351 | only the first field is copied: the element becomes the given one exactly if the other fields agree already |
| `SlotList.List.ReadAll` | DSP/c6x_emcv/cv/_cvlist.h:196-208 | walking from the head reads off the whole contents |
| `SlotList.LinkedInChained` | DSP/c6x_emcv/cv/_cvlist.h:289-324 | linking an element in between its neighbours keeps the two-way chain, the free list and all data |
| `SlotList.LinkedOutChained` | DSP/c6x_emcv/cv/_cvlist.h:325-346 | linking an element out keeps them too |
| `ResizeFactors.CalcResizeFactors` | DSP/Kcf_SA/src/CHwFhogManager.cpp:32-67 | the search ends with the fewest fractional bits that meet its test, never more than eight |
| `ResizeFactors.EightBitsNeeded` | DSP/Kcf_SA/src/CHwFhogManager.cpp:54-62 | two pixels do need eight |
| `ResizeFactors.EverySampleGood` | DSP/Kcf_SA/src/CHwFhogManager.cpp:54-65 | every one of the 136 samples is less than half a pixel off |
| `ResizeFactors.SamplesInSource` | DSP/Kcf_SA/src/CHwFhogManager.cpp:46-65 | all samples lie within the source exactly when it has a pixel |
| `ResizeFactors.RatiosKeptExactly` | DSP/Kcf_SA/src/CHwFhogManager.cpp:99-108 | the two steps are unchanged exactly when the width has at least as many fractional bits as the height, or both are zero; otherwise the width step is too long by the missing power of two |
| `ResizeFactors.StartHwFhog` | DSP/Kcf_SA/src/CHwFhogManager.cpp:79-116 | a block of more than 32768 pixels is refused; for any other the factors are the least good ones and are handed on unchanged exactly when the width has at least as many fractional bits |
| `ResizeFactors.WideBlock` | DSP/Kcf_SA/src/CHwFhogManager.cpp:99-108 | a concrete block, 136 by 2, whose height needs more bits than its width, so its steps are not kept |

## Left out

- The search for the parent of a contour and the hierarchy links: `TraceContour`, which it uses, is modelled.
- Pass 4 of the chain approximator, and the two copies of it for the other border methods.
- LinkedContours.FindContoursInInterval: works on lists of runs with explicit indices; the dummy first element is dropped, and the links inside the runs of the first row are written after the row is found rather than while it is.
- Errors, storage and block changes of sequences and memory storages; the contour code takes its sequences as values.
- Cores and threads of the pipeline run in atomic steps; interrupts, caches, message headers and heaps, event registers and link bring-up are not modelled. Messages are never lost.
- FramePipeline.MaximalRunsComplete: what a core computes from a frame is not modelled, only which frame it sees and whether it is told to begin.
- The server of the multi-core variant reads the reply core from a message it has just freed; the model takes it as a value.
- FftService.ReadsAreSequential: assumes for a drain that it does not end while commands are on their way; ServiceCalls.CallSafeExactly says at which calls that holds.
- Numeric content of features, kernels and peaks in the trackers: computations are terms with the buffers they read.
- FftTranspose.FftManager.Fft2dR2C: leaves the row transform open and takes numbers as reals; a pass copies only after all rows are transformed.
- Pyramid.PyrDown: bytes only; the border function for odd sizes and the 16-bit and floating-point flavours are left out.
- BilinearResize.Resize: the tables are built in exact arithmetic, for the linear method; area emulation is left out.
- HaarTree.Run: whether a stage passes is a parameter, and the links are those of a forest, which the cascade data has to provide.
- ChainApprox.Approximate: distances are exact integers where the code rounds to single precision, and the cosine is a parameter that is positive.
- ResizeFactors.CalcResizeFactors: division is exact where the code uses an approximate one.
- Bicubic and area resizing, tilted features, morphology, tracking heuristics, register programming and the demonstration programs.
