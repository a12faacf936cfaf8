# Spore counting: detection policy model

An Android application counts fungal spores in a microscope photograph of a counting-chamber
grid. The pixel work (resize, grey conversion, histogram equalisation, blur, adaptive
threshold, opening and closing, contour finding, contour area, arc length, convex hull,
bounding box, drawing) is done by OpenCV. What the application itself decides is the policy
around those calls, and that is what this project models:

- **Profile selection.** An identifier handed over by the previous screen is normalised (absent
  or empty becomes `"default"`) and looked up in a table of parameter profiles, with a default
  profile for unknown identifiers. The block size of the adaptive threshold is then coerced to
  be odd and at least 3. Two tables exist: the `appesporas` screen's `Hongo 1`..`Hongo 4`
  (module `HongoProfiles`) and the top-level screen's density-named profiles
  (module `DensityProfiles`).
- **Shape filter and count** (module `Detection`). Each contour is described by its measured
  area, perimeter, convex-hull area and bounding box. It is a spore when it passes four hard
  cutoffs tried in order: area range, circularity 4π·area/perimeter² (0 for a zero perimeter),
  solidity area/hullArea (0 for a zero hull area), and aspect-ratio range. The reported reason
  for a rejection is the first cutoff that fails; the count is the number of accepted contours.
- **Grid measurement** (module `GridMeasurement`). A fixed 380×315 region at (130, 35) of the
  640×480 canonical image is analysed with a fixed filter (area 3..70, circularity ≥ 0.50,
  solidity ≥ 0.80, no aspect test). Each kept contour's bounding-box centre is bucketed into a
  5×5 grid of 76×63-pixel cells; the report holds the 25 counts, the total, a ±10% band, an
  estimate total/0.95, and the mean area converted to mm² for a 20 mm × 20 mm grid.

`Counting` holds the generic count-if and sum helpers, `Optional` the `Option` type used for
Java's `null` and for "nothing to report".

Modelling choices:

- Contour metrics are exact `real` inputs; the bounding box has integer coordinates and a
  width and height of at least one pixel, which is what OpenCV reports for a non-empty contour,
  so the aspect ratio never divides by zero.
- π is the decimal 3.141592653589793; the proofs use only that it is positive.
- Java's `Math.round` is floor(x + 1/2) on exact rationals, and the factors 0.9, 1.1 and
  1/0.95 are exact rationals (9/10, 11/10, 20/19).
- The grid cell index is Java's `(int)` cast, which truncates toward zero; the model keeps the
  centre doubled (2x + w) so that it stays an integer.
- Java's `%` truncates while Dafny's is Euclidean; the two agree on whether `b % 2` is zero,
  which is the only use.

Notes on the code:

- There is no check for contours with fewer than three points; a degenerate contour is only
  rejected through its zero perimeter or zero hull area, and the model follows that.
- Every profile uses an asymmetric aspect range [min, max]; no profile uses a symmetric
  [1/max, max] form, so only the former is modelled.
- A centre is dropped from the grid only outside rows and columns [0, 5). Because 380 and 315
  are multiples of 5, no bounding box inside the crop is ever dropped (`InsideCropNeverDropped`).
- The cell index truncates toward zero, so a centre up to one cell left of or above the crop (e.g. y = -0.5) would land in row or column 0 rather than being dropped; boxes OpenCV returns for the crop never have negative coordinates, so this cannot show.
- The density table's comment pairs "Densidad Muy Alta" with the old "Hongo 4", but its
  constants are those of the old "Hongo 3" (apart from the draw thickness).

## Model

| member | source | states |
|---|---|---|
| Detection.CoerceBlockSize | appesporas/app/src/main/java/com/example/menuesporas/MainActivity2.java:293-294 | the result is odd, at least 3, within Java's int range, not below the input, and the least such value; an already valid size is unchanged |
| Detection.CoercionIdempotent | appesporas/app/src/main/java/com/example/menuesporas/MainActivity2.java:293-294 | coercing a coerced block size changes nothing |
| Detection.NormalizeId | appesporas/app/src/main/java/com/example/menuesporas/MainActivity2.java:93-98 | an absent or empty identifier becomes "default"; any other identifier is kept as is; the result is never empty |
| Detection.Circularity | appesporas/app/src/main/java/com/example/menuesporas/MainActivity2.java:372-373 | a zero perimeter gives exactly 0; otherwise the result times perimeter² equals 4π·area |
| Detection.Solidity | appesporas/app/src/main/java/com/example/menuesporas/MainActivity2.java:391-392 | a zero hull area gives exactly 0; otherwise the result times the hull area equals the area; non-negative for non-negative inputs |
| Detection.AspectRatio | appesporas/app/src/main/java/com/example/menuesporas/MainActivity2.java:403-404 | the ratio is positive and times the height equals the width |
| Detection.StripAspect | appesporas/app/src/main/java/com/example/menuesporas/MainActivity2.java:403-407 | a box ten times taller than wide has ratio at most 0.1, ten times wider than tall at least 10 |
| Detection.Classify | MainActivity2.java:271-318 | the verdict is Accepted exactly when all four cutoffs pass, and otherwise names the first failing cutoff in the order area, circularity, solidity, aspect ratio |
| Detection.DegenerateRejected | appesporas/app/src/main/java/com/example/menuesporas/MainActivity2.java:372-395 | with positive minimum circularity and solidity, a zero perimeter or zero hull area is never accepted; a zero perimeter with the area in range is rejected for circularity |
| Detection.Count | appesporas/app/src/main/java/com/example/menuesporas/MainActivity2.java:357-424 | the count never exceeds the number of contours |
| Detection.CountIsAcceptedContours | appesporas/app/src/main/java/com/example/menuesporas/MainActivity2.java:362-424 | the count is the number of contour positions the filter accepts |
| Detection.AcceptMonotone | appesporas/app/src/main/java/com/example/menuesporas/MainActivity2.java:366-414 | raising minimums or lowering maximums never turns a rejected contour into an accepted one |
| Detection.CountMonotone | appesporas/app/src/main/java/com/example/menuesporas/MainActivity2.java:366-414 | raising minimums or lowering maximums never increases the count on the same contours |
| Detection.Survivors | appesporas/app/src/main/java/com/example/menuesporas/MainActivity2.java:417-419 | the drawn contours are exactly the accepted ones, as many as the count |
| Detection.SurvivorsMultiplicity | appesporas/app/src/main/java/com/example/menuesporas/MainActivity2.java:417-419 | each accepted contour is drawn exactly as often as it occurs among the contours, and a rejected one never |
| Detection.SurvivorsNarrow | appesporas/app/src/main/java/com/example/menuesporas/MainActivity2.java:366-414 | filtering with a tighter profile after a looser one equals filtering with the tighter one |
| Detection.FilterContours | appesporas/app/src/main/java/com/example/menuesporas/MainActivity2.java:362-424 | the loop gives one verdict per contour, each the classification of that contour, and a count equal to the number of Accepted verdicts |
| Detection.SelectProfile | appesporas/app/src/main/java/com/example/menuesporas/MainActivity2.java:206-289 | for a table of well-formed profiles, none equal to the default, the selected profile is well formed and is the default exactly when the identifier is outside the table |
| Detection.ResolveProfile | appesporas/app/src/main/java/com/example/menuesporas/MainActivity2.java:231-294 | the profile in use is the selected one for the normalised identifier, unchanged by the block-size coercion, and its block size is valid |
| Detection.UnknownIsDefault | appesporas/app/src/main/java/com/example/menuesporas/MainActivity2.java:286-288 | an absent identifier, "default" and any identifier outside the table all resolve to the default profile |
| Detection.StripRejected | appesporas/app/src/main/java/com/example/menuesporas/MainActivity2.java:403-414 | when the aspect range lies strictly inside (0.1, 10), a box ten times longer one way than the other fails the aspect cutoff |
| HongoProfiles.Resolve | appesporas/app/src/main/java/com/example/menuesporas/MainActivity2.java:231-294 | the profile in use is well formed, is the default exactly when the normalised identifier is none of Hongo 1..4, and is otherwise that table entry unchanged by the coercion |
| HongoProfiles.TableIsOk | appesporas/app/src/main/java/com/example/menuesporas/MainActivity2.java:206-285 | the four Hongo profiles and the default are well formed, distinct from the default, and "default" is not a key |
| HongoProfiles.DefaultConstants | appesporas/app/src/main/java/com/example/menuesporas/MainActivity2.java:206-229 | any identifier other than Hongo 1..4, and an absent one, yields area [1,100], circularity 0.40, solidity 0.60, aspect [0.3,3.0], no morphology, thickness 1 |
| HongoProfiles.ListedConstants | appesporas/app/src/main/java/com/example/menuesporas/MainActivity2.java:233-285 | each of Hongo 1..4 yields exactly its listed constants |
| HongoProfiles.NoMorphology | appesporas/app/src/main/java/com/example/menuesporas/MainActivity2.java:221-285 | no profile of this screen runs an opening or closing pass |
| HongoProfiles.AspectWithin | appesporas/app/src/main/java/com/example/menuesporas/MainActivity2.java:221-285 | every aspect range of this screen lies within [0.3, 3.0] |
| HongoProfiles.StripNeverCounted | appesporas/app/src/main/java/com/example/menuesporas/MainActivity2.java:403-414 | a box ten times longer one way than the other is never accepted, whatever the identifier |
| DensityProfiles.Resolve | MainActivity2.java:159-219 | the profile in use is well formed, is the default exactly when the normalised identifier is none of the four density names, and is otherwise that table entry unchanged by the coercion |
| DensityProfiles.TableIsOk | MainActivity2.java:143-215 | the four density profiles and the default are well formed, distinct from the default, and "default" is not a key |
| DensityProfiles.DefaultConstants | MainActivity2.java:143-155 | any identifier other than the four density names, and an absent one, yields area [5,100], circularity 0.65, solidity 0.80, open 1, close 0, aspect [0.5,2.0] |
| DensityProfiles.HongoNamesFallBack | MainActivity2.java:159-214 | the old names Hongo 1..4 select the default |
| DensityProfiles.ListedConstants | MainActivity2.java:160-211 | each density name yields exactly its listed constants |
| DensityProfiles.OnlyVeryHighSkipsOpening | MainActivity2.java:150-211 | the opening pass is disabled exactly for "Densidad Muy Alta"; no profile closes |
| DensityProfiles.AspectWithin | MainActivity2.java:150-211 | every aspect range of this screen lies within [0.45, 2.6] |
| DensityProfiles.StripNeverCounted | MainActivity2.java:307-318 | a box ten times longer one way than the other is never accepted, whatever the identifier |
| GridMeasurement.ZoneFitsCanonical | appesporas/app/src/main/java/com/example/menuesporas/MedicionEsporas.java:92-94 | the crop (130,35,380,315) lies inside 640×480 and its cells are 76×63 pixels |
| GridMeasurement.GridFilterIgnoresBox | appesporas/app/src/main/java/com/example/menuesporas/MedicionEsporas.java:153 | the grid filter does not depend on the bounding box, so there is no aspect-ratio test |
| GridMeasurement.TruncDiv | appesporas/app/src/main/java/com/example/menuesporas/MedicionEsporas.java:158-159 | the quotient is the integer cast of the exact quotient, truncated toward zero for either sign |
| GridMeasurement.Cell | appesporas/app/src/main/java/com/example/menuesporas/MedicionEsporas.java:155-161 | a returned cell is in [0,5)²; a cell is returned exactly when the centre is less than one cell below 0 and below 5 cells each way (truncation toward zero), a negative centre going to index 0; a non-negative centre lies in its cell's pixel extent |
| GridMeasurement.InsideCropNeverDropped | appesporas/app/src/main/java/com/example/menuesporas/MedicionEsporas.java:156-166 | a bounding box inside the crop is always given a cell |
| GridMeasurement.Recorded | appesporas/app/src/main/java/com/example/menuesporas/MedicionEsporas.java:153-166 | one area is recorded per contour that passes the filter and lands in the grid: each value occurs as often as such a contour has that area, and every recorded area lies in [3,70] |
| GridMeasurement.AllInsideRecorded | appesporas/app/src/main/java/com/example/menuesporas/MedicionEsporas.java:153-166 | when every box lies inside the crop, the number recorded is the number passing the filter |
| GridMeasurement.TallyByCell | appesporas/app/src/main/java/com/example/menuesporas/MedicionEsporas.java:156-162 | for any placement of elements into cells, each cell of the built table holds the number of elements placed in it |
| GridMeasurement.Slot | appesporas/app/src/main/java/com/example/menuesporas/MedicionEsporas.java:153-161 | a contour is placed in a cell exactly when it passes the filter and its centre lands in the grid, and then in the cell of its centre |
| GridMeasurement.Tally | appesporas/app/src/main/java/com/example/menuesporas/MedicionEsporas.java:127-166 | the table of counts is always 5×5 |
| GridMeasurement.TallyCell | appesporas/app/src/main/java/com/example/menuesporas/MedicionEsporas.java:156-162 | each cell holds the number of accepted contours whose centre falls in it |
| GridMeasurement.TallyAllCells | appesporas/app/src/main/java/com/example/menuesporas/MedicionEsporas.java:156-162 | all 25 cells at once hold their counts of kept contours |
| GridMeasurement.TallySum | appesporas/app/src/main/java/com/example/menuesporas/MedicionEsporas.java:162-170 | the 25 cell counts add up to the number of recorded areas, the reported total |
| GridMeasurement.MeasureGrid | appesporas/app/src/main/java/com/example/menuesporas/MedicionEsporas.java:132-170 | the loop's table gives every cell its count of contours and its area list is the recorded one, with the cell sum equal to the list length |
| GridMeasurement.RoundHalfUp | appesporas/app/src/main/java/com/example/menuesporas/MedicionEsporas.java:189-196 | the result is within one half of the input, halves going up |
| GridMeasurement.ExpectedMin | appesporas/app/src/main/java/com/example/menuesporas/MedicionEsporas.java:188-189 | the lower end of the band is between 0 and the total |
| GridMeasurement.ExpectedMax | appesporas/app/src/main/java/com/example/menuesporas/MedicionEsporas.java:190 | the upper end of the band is at least the total |
| GridMeasurement.Estimated | appesporas/app/src/main/java/com/example/menuesporas/MedicionEsporas.java:196 | the estimate is at least the total |
| GridMeasurement.BandIntegerForm | appesporas/app/src/main/java/com/example/menuesporas/MedicionEsporas.java:188-196 | the band ends and the estimate equal (9t+5) div 10, (11t+5) div 10 and (40t+19) div 38 |
| GridMeasurement.EstimateWithinBand | appesporas/app/src/main/java/com/example/menuesporas/MedicionEsporas.java:189-196 | the estimate lies between the band ends |
| GridMeasurement.ScaleValue | appesporas/app/src/main/java/com/example/menuesporas/MedicionEsporas.java:201-204 | pixels per mm is 17.375 for the crop, so one square pixel is 1/301.890625 mm² |
| GridMeasurement.MeanAreaMm2 | appesporas/app/src/main/java/com/example/menuesporas/MedicionEsporas.java:200-215 | there is no mean exactly when no area was recorded; otherwise the mean times pixels-per-mm squared times the count gives back the sum of the areas |
| GridMeasurement.MeanAreaBounds | appesporas/app/src/main/java/com/example/menuesporas/MedicionEsporas.java:200-211 | when every area lies between lo and hi, a reported mean lies between lo and hi converted to mm² (3 and 70 for the recorded areas) |
| GridMeasurement.Analyse | appesporas/app/src/main/java/com/example/menuesporas/MedicionEsporas.java:124-216 | each of the 25 counts is the number of kept contours whose centre lies in that cell, and they sum to the total, which is the number of kept contours; the band ends and the estimate are exactly (9t+5) div 10, (11t+5) div 10 and (40t+19) div 38 and bracket the total and the estimate; the mean is that of the recorded areas, absent exactly for a zero total and otherwise within the filter's area range; with every box inside the crop the total is the number passing the filter |

## Left out

- All OpenCV calls (resize, cvtColor, equalizeHist, GaussianBlur, adaptiveThreshold, getStructuringElement, morphologyEx, findContours, contourArea, arcLength, convexHull, boundingRect, drawContours): foreign library code; their outputs are the `Metrics` inputs. The block size, bias and iteration counts only feed these calls, so they are carried in the profile and not interpreted further; the fixed 3×3 elliptical kernel of the counting screens is not modelled at all.
- The grid screen's fixed threshold and morphology constants (block size 15, C 5, two opening passes with a 3×3 kernel, one closing pass with a 5×5 kernel): they only feed OpenCV.
- IEEE-754 double arithmetic: `Math.PI`, the products and quotients and `Math.round` are exact rationals here, which can differ from doubles at exact .5 boundaries.
- Native `Mat.release()` bookkeeping and the buffers leaked on the early `continue` paths: resource management, not behaviour.
- The Android lifecycle, intents, the gallery picker, bitmap conversion, the image and text views, the static OpenCV loader and the `%.2f`/`%.4f` text formatting and per-cell text lines.
- menuesporas/app/src/main/java/com/example/menuesporas/MainActivity2.java: it only calls HSV `inRange`, blur and `findContours` and reports `contours.size()`.
- The `elegirhongo`, `tutorial`, `tutorial2` and `MainActivity` screens: button-to-screen navigation whose identifiers come from string resources.
- GridMeasurement.Cell: uses the crop's cell size 76×63 as constants, because the screen only ever divides the fixed 380×315 crop; a crop narrower than 5 pixels (a division by zero in doubles) is not modelled.
- Pixel-level geometry: which contours OpenCV finds in a given picture, and what it measures of them, is not modelled; only the policy consequences for given measurements are stated (`DegenerateRejected`, each table's `StripNeverCounted`, `UnknownIsDefault`).
- Java's 32-bit `int` counters and the `(int)` casts of `Math.round` become unbounded `nat`/`int`: the counts never exceed the number of contours, and the band ends and the estimate are roundings of at most 1.1 times the total, so no value the screens handle comes near the 32-bit range.
