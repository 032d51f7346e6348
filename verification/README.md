# Graphics homeworks hw0–hw7 in Dafny

This project models the computational core of a series of computer-graphics
homework programs, hw0 to hw7, and proves properties of it. The programs
cover:

- transformation lists and their matrix products;
- OBJ, transform and scene-file readers;
- wireframe drawing with a generalised Bresenham line drawer;
- barycentric triangle rasterisation with a depth buffer;
- perspective and camera matrices;
- quaternion and vector algebra for an arcball;
- halfedge meshes and the implicit-fairing operator;
- keyframe animation with Catmull-Rom splines;
- spring-pendulum and elasticity demos;
- a superquadric ray tracer.

## How the source is modelled

- **Classes.** A C++ object whose methods update its fields becomes a Dafny
  `class`. Examples: the transformation lists, `Scene`, `Image`, the halfedge
  mesh, the demos' global state. Each method carries `modifies` and states
  the whole new state in terms of a specification function.
- **Values.** Value types become datatypes: vertices, faces, matrices,
  quaternions, frames, rays.
- **Loops.** Every loop of the source is a `while` loop with its
  invariants. The specification function it is proved against has its own
  lemmas.
- **Scalars.** `float` and `double` are `real`. IEEE infinities and NaN
  appear only where the source depends on them, through
  `Floats.Float = Num | PosInf | NegInf | NaN`. Examples:
  - `GetInitialGuess` returning INFINITY;
  - division by zero in the Newton step;
  - the colour clamp of the pendulum demos.
- **Math library.** `sqrt`, `pow`, `sin`, `cos`, `acos` and Eigen's matrix
  inverse are fields of a `LinAlg.Math` value passed to every operation
  that uses them. They are uninterpreted. The few laws a proof needs, such
  as `SqrtLaw`, are stated as `requires`.
- **Number parsing.** `strtod`/`atof` and `atoi`/`stoi` are likewise
  parameters (`ObjWords.Parsers`).
- **Input.** File input is a sequence of lines or a stream of words.
  `Streams` models `>>` and `getline`/`strsplit`.

The hw0 product is T1·T2·…·Tk (`Hw0Transform`). The later homeworks compute
Tk·…·T1 (`Hw1Transform`, `LinAlg.ProductLastFirst`). `LinAlg` proves that
each order is the other's over the reversed list.

## Model

| member | source | states |
|---|---|---|
| Hw0Ppm.Half | hw0/Part4/ppm_gen.cpp:59-62 | C's `/ 2`: the quotient rounded toward zero, with a remainder of at most 1 of the dividend's sign |
| Hw0Ppm.Diameter | hw0/Part4/ppm_gen.cpp:40-46 | the smaller of the two dimensions |
| Hw0Ppm.PpmGen | hw0/Part4/ppm_gen.cpp:29-86 | without exactly two arguments only the usage line; otherwise the image for the resolution atoi reads from them |
| Hw0Ppm.DrawCircle | hw0/Part4/ppm_gen.cpp:48-85 | the header P3, "cols rows", 255, then the rows top to bottom |
| Hw0Ppm.DrawRow | hw0/Part4/ppm_gen.cpp:66-83 | row y's pixels left to right, yellow where dx² + dy² <= (diameter/2)², dark red elsewhere |
| Hw0Ppm.RowsLength | hw0/Part4/ppm_gen.cpp:65-66 | n rows hold n·cols pixel lines |
| Hw0Ppm.RowsAt | hw0/Part4/ppm_gen.cpp:65-66 | among n rows, pixel (x, y) is entry y·cols + x |
| Hw0Ppm.PpmLayout | hw0/Part4/ppm_gen.cpp:48-85 | the file is exactly the three header lines followed by rows·cols pixel lines |
| Hw0Ppm.PixelAt | hw0/Part4/ppm_gen.cpp:65-83 | pixel (x, y) is line 3 + y·cols + x: row-major order |
| Hw0Ppm.CentreIsYellow | hw0/Part4/ppm_gen.cpp:59-83 | the centre (cols/2, rows/2) is on the grid and yellow for every positive resolution |
| Hw0Ppm.MirrorSymmetric | hw0/Part4/ppm_gen.cpp:59-83 | a pixel and its mirror image about the centre column or the centre row have the same colour |
| Hw0Ppm.YellowWithinRadius | hw0/Part4/ppm_gen.cpp:62-83 | a yellow pixel lies within diameter/2 of the centre in each direction |
| Hw0Ppm.CornerIsDarkRed | hw0/Part4/ppm_gen.cpp:62-83 | in a square image of side at least 2 the corner (0, 0) is dark red |
| Hw0Transform.Transformation.constructor | hw0/include/transform.h:72 | the list starts empty |
| Hw0Transform.Transformation.FromList | hw0/include/transform.h:76 | the list is the given matrices, in order |
| Hw0Transform.Transformation.AddRotation | hw0/include/transform.h:80-82 | appends the rotation matrix about u by theta |
| Hw0Transform.Transformation.AddTranslation | hw0/include/transform.h:85-87 | appends the translation matrix by v |
| Hw0Transform.Transformation.AddScaling | hw0/include/transform.h:90-92 | appends the TRANSLATION matrix by v, as add_scaling is written |
| Hw0Transform.Transformation.ComputeProduct | hw0/include/transform.h:96-109 | the product T1·T2·…·Tk, which applies the list last to first, and the list is left empty |
| Hw0Transform.PushedMatrices | hw0/include/transform.h:80-92 | one matrix per record, each the one add_rotation, add_translation or add_scaling pushes |
| Hw0Transform.PushedMatricesSnoc | hw0/include/transform.h:80-92 | one more record pushes one more matrix at the end |
| Hw0Transform.ScalingListTranslates | hw0/include/transform.h:90-92 | a list built by add_scaling(v) moves every point by v instead of scaling it |
| Hw0Transform.PushedScalingTranslates | hw0/include/transform.h:90-92 | the matrix add_scaling(v) pushes for a scaling record moves every point by v |
| Hw0Transform.IntendedScalingScales | hw0/include/transform.h:90-92 | a scaling record's intended matrix, the scaling matrix, multiplies each coordinate of a point by the matching factor |
| Hw0Transform.Hw0OrderIsReversedHw1Order | hw0/include/transform.h:96-109 | the first-to-last product of a list is the last-to-first product of the reversed list |
| Hw0ParseTransform.CreateTransformationMatrix | hw0/Part2/parse_transform.cpp:9-36 | None when a record of unknown type throws; otherwise T1·…·Tk of the matrices the Transformation receives, so the last record read applies first |
| Hw0ParseTransform.AddRecords | hw0/Part2/parse_transform.cpp:14-34 | the Transformation receives each record's matrix in file order; reports whether an unknown record type ended the reading |
| Hw0ParseTransform.AgreesWithoutScaling | hw0/Part2/parse_transform.cpp:24-28 | without scaling records this program and Part2/transform.cpp compute the same product |
| Hw0ParseTransform.ScalingRecordTranslates | hw0/Part2/parse_transform.cpp:24-28 | for the file "s a b c" transform.cpp leaves the origin in place while this program moves it to the factor vector |
| Hw0ParseTransform.ScalingSpecTranslates | hw0/Part2/parse_transform.cpp:27-28 | a scaling record's matrix here moves the origin to the factors; in transform.cpp it keeps it |
| Hw0Part2Transform.CreateTransformationMatrix | hw0/Part2/transform.cpp:63-105 | the product T1·…·Tk of the records' matrices, in file order, so the last record applies first; an unknown record ends the reading |
| Hw0Part2Transform.ReadTransformations | hw0/Part2/transform.cpp:68-91 | the matrices of the records in file order: rotation, translation or scaling by the record's numbers |
| Hw0Part2Transform.PopProduct | hw0/Part2/transform.cpp:94-102 | T1·…·Tk, which applies the list last to first |
| Hw0Part3.CreateTransformation | hw0/Part3/transform.cpp:45-76 | None when a line throws; otherwise the matrices of the lines up to the next empty line or the end, and reading goes on after that empty line |
| Hw0Part3.AddLine | hw0/Part3/transform.cpp:52-73 | a line of known type with enough numbers appends its matrix; any other line throws and changes nothing |
| Hw0Part3.GetObject | hw0/Part3/transform.cpp:117-125 | create_object on the named file: its vertex list starts with the sentinel and its list of transformations is empty |
| Hw0Part3.BuildScene | hw0/Part3/transform.cpp:188-217 | the final objects in the order of their label lines, each a copy of the first object with that label carrying the block that follows; None when the program throws |
| Hw0Part3.ObjectFromKeepsSentinel | hw0/Part3/transform.cpp:80-114 | reading a stream keeps a vertex list that starts with the sentinel |
| Hw0Part3.SceneKeepsObjects | hw0/Part3/transform.cpp:196-217 | main only appends to the final objects, and each has its vertex list as create_object built it |
| Hw0Part3.AsWrittenPoints | hw0/Part3/transform.cpp:159-165 | one point per vertex after the sentinel: the first multiplied by the whole product, every later one by the identity left after compute_product emptied the list; OnlyFirstVertexMoves and SecondVertexNotMoved state this, and PrintVertices returns exactly these points |
| Hw0Part3.PrintVertices | hw0/Part3/transform.cpp:159-165 | the points as written: compute_product is called once per vertex and empties the list, so only the first vertex is transformed |
| Hw0Part3.PrintVerticesFixed | hw0/Part3/transform.cpp:159-165 | the points with the product computed once: every vertex is transformed by the whole product |
| Hw0Part3.OnlyFirstVertexMoves | hw0/Part3/transform.cpp:159-165 | as written the first vertex is transformed and every later one printed where it is |
| Hw0Part3.SecondVertexNotMoved | hw0/Part3/transform.cpp:159-165 | for a translation by d, as written the second vertex p prints as p; as intended, as p + d |
| Hw0Part3.IntendedSecondVertex | hw0/Part3/transform.cpp:159-165 | the intended output moves the second vertex by the translation |
| Hw0Part3.PrintTransformations | hw0/Part3/transform.cpp:140-170 | one titled block per object: its label and copy number (the count of objects with that label up to it), then its vertices as the loop prints them |
| Hw0Part3.OccurrencesSnoc | hw0/Part3/transform.cpp:147-152 | one more object raises its own label's count by one and no other |
| Hw0Part3.CopyNumbersIncrease | hw0/Part3/transform.cpp:147-155 | copies of one label are numbered from 1, a later copy with a larger number |
| Hw0Part3.OccurrencesGrow | hw0/Part3/transform.cpp:147-152 | counts never fall as more objects are seen |
| Labels.FirstWithLabel | hw0/Part3/transform.cpp:128-137 | the position of the first element with the label; none exactly when no element has it |
| Labels.FindObjectWithLabel | hw0/Part3/transform.cpp:128-137 | a copy of the first element with the label; None (the throw) exactly when no element has it |
| Labels.FirstIsUnique | hw0/Part3/transform.cpp:130-135 | an element with the label and none before it is the one found |
| ObjWords.ObjectFromStep | hw0/Part1/parse.cpp:43-59 | one record: fewer than four words or an unknown type stop the reading; 'v' appends the vertex, 'f' the face, and reading goes on after its four words |
| ObjWords.CreateObject | hw0/Part1/parse.cpp:28-62 | the object read from the whole stream, its vertex list starting with the sentinel |
| ObjWords.VertexWordsFrom | hw0/Part1/parse.cpp:15-18 | the vertex lines from i on are line i then the rest |
| ObjWords.FaceWordsFrom | hw0/Part1/parse.cpp:20-23 | the face lines from j on are line j then the rest |
| ObjWords.PrintObject | hw0/Part1/parse.cpp:13-24 | every vertex after the sentinel, then every face, in insertion order |
| ObjWords.ReadVertexRecord | hw0/Part1/parse.cpp:46-49 | a 'v' record appends the vertex strtof reads and reading goes on after it |
| ObjWords.ReadFaceRecord | hw0/Part1/parse.cpp:52-55 | an 'f' record appends the face atoi reads and reading goes on after it |
| ObjWords.PrintedVertexReads | hw0/Part1/parse.cpp:17 | a printed vertex line reads back as that vertex |
| ObjWords.PrintedFaceReads | hw0/Part1/parse.cpp:22 | a printed face line reads back as that face |
| ObjWords.VertexWordsRead | hw0/Part1/parse.cpp:43-49 | reading printed vertex lines appends exactly those vertices |
| ObjWords.FirstVertexRead | hw0/Part1/parse.cpp:43-49 | reading the first printed vertex line appends it |
| ObjWords.FaceWordsRead | hw0/Part1/parse.cpp:43-55 | reading printed face lines appends exactly those faces |
| ObjWords.FirstFaceRead | hw0/Part1/parse.cpp:52-55 | reading the first printed face line appends it |
| ObjWords.OtherRecordStops | hw0/Part1/parse.cpp:56-59 | an empty stream or a record of another type adds nothing |
| ObjWords.RoundTripsReadBack | hw0/Part1/parse.cpp:13-24 | under formatters that the readers invert, every vertex and face of an object reads back |
| ObjWords.PrintedObjectReadsBack | hw0/Part1/parse.cpp:13-62 | reading back what print_object printed, followed by nothing or by a record of another type, gives the object again |
| ObjWords.PrintedObjectReadsBackExactly | hw0/Part1/parse.cpp:13-62 | the same for formatters the readers invert on every value; `printf("%f")` keeps six decimals and strtof reads back a float, so the program's own pair meets this only for values they represent exactly, and PrintedObjectReadsBack states the round trip with per-value hypotheses |
| Streams.ExtractChar | hw0/Part1/parse.cpp:43 | `>> c` fails only at the end; it takes the next word's first character and loses or repeats nothing |
| Streams.ExtractWord | hw0/Part1/parse.cpp:43 | `>> s` fails only at the end; it takes the whole next word |
| Streams.ExtractWords | hw0/Part2/parse_transform.cpp:17 | a chain of `>>` succeeds when enough words are left; each variable takes its word, and once the stream ends the rest keep their old values |
| Streams.SuffixIsWordStream | hw0/Part1/parse.cpp:43 | what is left after words are read is still a word stream |
| Streams.NextDelim | hw0/Part3/transform.cpp:37 | the first delimiter at or after from, or the end |
| Streams.SplitNonEmpty | hw0/Part3/transform.cpp:33-41 | a non-empty string splits into at least one item |
| Streams.GetLine | hw0/Part3/transform.cpp:37 | the characters up to the next delimiter; the stream then stands after it |
| Streams.StrSplit | hw0/Part3/transform.cpp:33-41 | every item getline returns, in order |
| Streams.SplitFrom | hw0/Part3/transform.cpp:33-41 | a split is its first item followed by the split of the rest |
| Streams.SplitAt | hw0/Part3/transform.cpp:33-41 | the same, at a precomputed delimiter position |
| Streams.NextDelimShift | hw0/Part3/transform.cpp:37 | the first delimiter of a suffix is the string's, shifted |
| Streams.SplitItemsHaveNoDelim | hw0/Part3/transform.cpp:33-41 | no item contains the delimiter |
| Streams.JoinSplit | hw0/Part3/transform.cpp:33-41 | joining the items gives the string back, minus one trailing delimiter if it had one |
| Streams.SplitJoin | hw0/Part3/transform.cpp:33-41 | splitting items joined by the delimiter gives them back, when none holds the delimiter and the last is non-empty |
| TransformWords.WordSpecsStep | hw0/Part2/transform.cpp:68-91 | one record: an unknown type ends the reading; 'r' reads four numbers, 't' and 's' three, and reading goes on after them |
| TransformWords.ReadOn | hw0/Part2/transform.cpp:68-91 | moving one transformation from what is left to what is read keeps the whole |
| TransformWords.VarsAfter | hw0/Part2/transform.cpp:65-81 | the four string variables after a record |
| TransformWords.EndOfRecords | hw0/Part2/transform.cpp:68-90 | at the end or at an unknown record nothing more is read, and the unknown flag says which |
| TransformWords.ReadSpecWords | hw0/Part2/transform.cpp:68-86 | a written record reads back as its transformation |
| TransformWords.SpecsWordsRead | hw0/Part2/transform.cpp:68-91 | written records followed by the end or an unknown record read back as exactly those transformations, in order |
| TransformWords.TruncatedRecordUsesStaleWords | hw0/Part2/transform.cpp:79-81 | a translation record cut short after its first number still yields a translation, its other coordinates coming from the previous record's words |
| TransformLines.SpecMatrices | hw0/Part2/transform.cpp:75-85 | one matrix per transformation, each its rotation, translation or scaling matrix |
| TransformLines.ParseTransformTokens | hw0/Part3/transform.cpp:55-73 | a transformation exactly when the first character is r, t or s and enough numbers follow; its kind follows that character |
| TransformLines.BlockLast | hw0/Part3/transform.cpp:50 | the first empty line from start on, or the end: every line before it is non-empty |
| TransformLines.BlockLastBeyond | hw0/Part3/transform.cpp:50 | the block reaches past every non-empty line that follows its start without a gap |
| TransformLines.BlockLastAt | hw0/Part3/transform.cpp:50 | the block ends at the first empty line or at the end |
| TransformLines.RejectedLineLosesBlock | hw0/Part3/transform.cpp:71-73 | a rejected line anywhere in the block loses the whole block |
| TransformLines.BlockRead | hw0/Part3/transform.cpp:45-76 | lines each yielding their transformation up to an empty line make a block of exactly those transformations, and reading goes on after the empty line |
| TransformLines.LineSpecsSnoc | hw0/Part3/transform.cpp:50-74 | one more line read with its transformation |
| TransformLines.ReadSoFarSnoc | hw0/Part3/transform.cpp:50-74 | one more non-empty line read keeps the loop's record of what was read |
| TransformLines.SpecMatricesSnoc | hw0/Part2/transform.cpp:75-85 | one more transformation gives one more matrix at the end |
| TransformLines.BlockSpecs | hw0/Part3/transform.cpp:45-76 | None exactly when a line of the block is rejected; otherwise entry i is line start + i's transformation |
| TransformLines.FormattedLineParses | hw0/Part3/transform.cpp:52-70 | a formatted line reads back as the transformation it describes |
| TransformLines.FormattedBlockParses | hw0/Part3/transform.cpp:45-76 | a block of formatted lines closed by an empty line reads back as the same transformations, and reading stops just after the empty line |
| TransformLines.UnknownLineLosesBlock | hw0/Part3/transform.cpp:71-73 | a line whose first character is not r, t or s loses the whole block |
| Hw1Object.Object.constructor | hw1/include/object.h:77 | empty vertex and face lists and a fresh, empty transformation |
| Hw1Object.Object.Copy | hw1/include/object.h:85 | the same vertices, faces and matrices, in a fresh transformation of its own |
| Hw1Object.Object.AddVertex | hw1/src/object.cpp:33-35 | appends the vertex; faces and transformation stay |
| Hw1Object.Object.AddFace | hw1/src/object.cpp:37-39 | appends the face; vertices and transformation stay |
| Hw1Object.Image | hw1/src/object.cpp:66-69 | the vertex whose column is M times the vertex's column, without a divide |
| Hw1Object.GetTransformedVertices | hw1/src/object.cpp:60-74 | the sentinel, then compute_product()·v for every later vertex; the list keeps its length |
| Hw1Object.AffineNeedsNoDivide | hw1/src/object.cpp:60-74 | for rotations, translations and scalings and a vertex with w = 1, w stays 1, so hw2's divide by w changes nothing |
| Hw1Parser.CreateObject | hw1/src/parser.cpp:21-55 | a fresh Object with what the whole stream yields after the sentinel, and an empty Transformation |
| Hw1Parser.GetObject | hw1/src/parser.cpp:62-70 | create_object on the named file; a file that cannot be opened leaves only the sentinel |
| Hw1Parser.CreateTransformation | hw1/src/parser.cpp:74-105 | None when a line throws; otherwise a fresh Transformation with the block's matrices in file order, and reading goes on after the empty line |
| Hw1Parser.AddLine | hw1/src/parser.cpp:81-102 | a line of known type with enough numbers appends its matrix; any other line throws and changes nothing |
| Hw1Parser.FormattedBlockMatrices | hw1/src/parser.cpp:74-105 | a block of formatted lines reads back, and its product applies the first line first |
| Hw1Scene.Scene.Default | hw1/include/scene.h:66 | the default camera and perspective, no objects |
| Hw1Scene.Scene.constructor | hw1/include/scene.h:69 | the given camera and perspective, no objects |
| Hw1Scene.Scene.AddLabeled | hw1/src/scene.cpp:58-60 | appends exactly one entry at the end; camera and perspective stay |
| Hw1Scene.Scene.AddLabeledObject | hw1/src/scene.cpp:62-65 | the same with the labelled pair built first |
| Hw1Scene.Scene.PlaceLabeledObject | hw1/src/wireframe.cpp:69-76 | placed exactly when an object has the label: a copy of the first such object, carrying the block's transformation, is appended; otherwise nothing changes |
| Hw1Transform.Transformation.constructor | hw1/src/parser.cpp:76 | the list starts empty |
| Hw1Transform.Transformation.AddRotation | hw1/src/transform.cpp:62-64 | appends the rotation about u by rad |
| Hw1Transform.Transformation.AddTranslation | hw1/src/transform.cpp:66-68 | appends the translation by v |
| Hw1Transform.Transformation.AddScaling | hw1/src/transform.cpp:70-72 | appends the scaling by v |
| Hw1Transform.Transformation.ComputeProduct | hw1/src/transform.cpp:74-84 | Tk·…·T1, which applies the list first to last; the identity for an empty list; the list is unchanged |
| Hw1Transform.BasicTransformsAreAffine | hw1/src/transform.cpp:10-56 | rotations, translations and scalings have bottom row (0, 0, 0, 1) |
| Hw1Transform.AffineProduct | hw1/src/transform.cpp:74-84 | a product of such matrices has that bottom row too and keeps w = 1 |
| Hw1Transform.AffineMul | hw1/src/transform.cpp:80 | one product of two such matrices has it |
| RtIntersect.InsideOutside | hw7/assignment/src/assignment.cpp:19-21 | InsideOutsideFunc: −1 + pow(z², 1/n) + pow(pow(x², 1/e) + pow(y², 1/e), e/n); OriginIsInside states its value at the origin and IOTest reports a point inside exactly where it is negative |
| RtIntersect.OriginIsInside | hw7/assignment/src/assignment.cpp:19-21 | when pow(0, r) = 0 for positive r, the inside-outside function is -1 at the body-space origin for positive exponents |
| RtIntersect.Grad | hw7/assignment/src/assignment.cpp:146-152 | InsideOutsideGrad: the partial derivatives of InsideOutsideFunc, each over n; GetNormalIsNormalisedGrad ties it to GetNormal off the coordinate planes |
| RtIntersect.GetNormalIsNormalisedGrad | hw7/assignment/src/object.cpp:96-116 | off the coordinate planes the zero guards of GetNormal are not taken: its gradient is InsideOutsideGrad (assignment.cpp:146-152) and the normal is that gradient normalised |
| RtIntersect.Matrices | hw7/assignment/src/assignment.cpp:221-226 | one matrix per transform, in list order |
| RtIntersect.Inverses | hw7/assignment/src/assignment.cpp:221-226 | one inverse per transform, in list order |
| RtIntersect.BodyFromParentUndoesLastFirst | hw7/assignment/src/assignment.cpp:221-226 | the parent-to-body product T1^-1·…·Tk^-1 applies the inverse of the LAST transform first |
| RtIntersect.ParentFromBodyAppliesFirstFirst | hw7/assignment/src/assignment.cpp:254-259 | the body-to-parent product Tk·…·T1 applies the FIRST transform first |
| RtIntersect.InOrderThenReversedInverses | hw7/assignment/src/assignment.cpp:221-259 | applying the matrices in order and then their left inverses in reverse order gives the point back |
| RtIntersect.BodyFromParentUndoesParentFromBody | hw7/assignment/src/assignment.cpp:221-259 | a point taken into a node's body space and back is where it started, when every transform matrix is invertible |
| RtIntersect.ToBodySpace | hw7/assignment/src/assignment.cpp:37-44 | IOTest's loop multiplies the point by each inverse from the last transform to the first; the result is the parent-to-body image of the point |
| RtIntersect.BodyFromParentLoop | hw7/assignment/src/assignment.cpp:218-226 | ClosestIntersection's loop from the identity, each inverse multiplied on the left from the last transform to the first, yields T1^-1·…·Tk^-1 |
| RtIntersect.ParentFromBodyLoop | hw7/assignment/src/assignment.cpp:251-259 | the final-transform loop from the identity, each matrix multiplied on the left from the first transform to the last, yields Tk·…·T1 |
| RtIntersect.NoTransformsKeepPoints | hw7/assignment/src/assignment.cpp:37-44 | a node without transforms leaves the point where it is |
| RtIntersect.EmptyAssemblyIsEmpty | hw7/assignment/src/assignment.cpp:56-81 | an assembly with no children reports every point outside |
| RtIntersect.UntransformedContainsOrigin | hw7/assignment/src/assignment.cpp:27-54 | a superquadric without transforms and with positive exponents reports the origin inside |
| RtIntersect.IOTest | hw7/assignment/src/assignment.cpp:27-81 | the result is the containment predicate: a superquadric holds the point iff the inside-outside value in body space is strictly negative (0 is outside); an assembly holds it iff some child holds the assembly-local point, and none when it has no children |
| RtIntersect.Sign | hw7/assignment/src/assignment.cpp:87-89 | 1 for a positive argument and -1 otherwise, zero included |
| RtIntersect.InitialGuess | hw7/assignment/src/assignment.cpp:92-143 | +inf when the discriminant is negative; -inf only for a zero quadratic coefficient; the candidates use delta where sqrt(delta) belongs, as assignment.cpp:110-111 is written |
| RtIntersect.InitialGuessCases | hw7/assignment/src/assignment.cpp:92-143 | for a nonzero direction: never -inf nor negative; NaN exactly when b = 0 and c = 0 (0/0); +inf exactly when the discriminant is negative or both candidates are negative; otherwise the smaller positive candidate, computed, as written, from the discriminant without a square root (see Findings) |
| RtIntersect.PickGuess | hw7/assignment/src/assignment.cpp:113-141 | the guess is one of the two candidates or +inf: t_minus when both are positive, +inf when both are negative, otherwise the positive one, t_plus when neither compares as positive |
| RtIntersect.SquaredDistanceAt | hw7/assignment/src/assignment.cpp:95-102 | the squared distance of the ray's point at t from the centre is a·t² + b·t + c + 3, so t is a root of the coefficients GetInitialGuess computes exactly when that point lies on the bounding sphere of squared radius 3 |
| RtIntersect.InitialGuessOffSphere | hw7/assignment/src/assignment.cpp:104-111 | as written, a unit ray from the centre (a = 1, b = 0, c = -3) gets the guess 6, a point at squared distance 36, outside the bounding sphere and beyond it |
| RtIntersect.InitialGuessFixed | hw7/assignment/src/assignment.cpp:104-141 | the same case split with sqrt(delta) where the source uses delta; +inf for a negative discriminant |
| RtIntersect.FixedGuessIsRoot | hw7/assignment/src/assignment.cpp:110-111 | with a square root, a finite corrected guess is a root of a·t² + b·t + c, whichever candidate is picked |
| RtIntersect.InitialGuessFixedOnSphere | hw7/assignment/src/assignment.cpp:92-143 | with a square root, the ray's point at a finite corrected guess lies on the bounding sphere of squared radius 3 |
| RtIntersect.FlatUpdate | hw7/assignment/src/assignment.cpp:188 | t - g/0 at a zero slope is an infinity, NaN exactly when g = 0 |
| RtIntersect.FlatUpdateNegatesQuotient | hw7/assignment/src/assignment.cpp:188 | that infinity is the opposite of the IEEE quotient g/+0 or g/-0 |
| RtIntersect.NewtonStep | hw7/assignment/src/assignment.cpp:188-197 | the update t - g(t)/g'(t) is finite exactly at a finite t with a nonzero slope, and NaN after a non-finite t |
| RtIntersect.NewtonStepOverflow | hw7/assignment/src/assignment.cpp:188 | the update is +inf exactly at a finite t where g' is zero and g is nonzero with the sign that, divided by that zero, gives -inf |
| RtIntersect.NewtonStepOnTangent | hw7/assignment/src/assignment.cpp:188 | a finite update is where the tangent through (t, g(t)) with slope g'(t) reaches zero |
| RtIntersect.NewtonIterativeSolver | hw7/assignment/src/assignment.cpp:155-210 | the solver returns NewtonResult: +inf for a +inf guess, the guess when it has converged, otherwise the loop of at most MAX_ITERS = 10000 updates |
| RtIntersect.NewtonRunInfinite | hw7/assignment/src/assignment.cpp:186-207 | from an iterate other than +inf, the loop ends on +inf only when the iterate at the cap is +inf, since a +inf iterate is followed by NaN for good |
| RtIntersect.NewtonInfiniteCases | hw7/assignment/src/assignment.cpp:155-210 | the solver returns +inf when the guess is +inf, and otherwise only when the iterate at the cap is +inf |
| RtIntersect.NewtonRunFrom | hw7/assignment/src/assignment.cpp:186-207 | from iterate j, when iterate `stop` is the first that passes the test (or none does up to the cap), the loop returns iterate stop - 1 |
| RtIntersect.NewtonReturnsIterateBeforeConverged | hw7/assignment/src/assignment.cpp:186-209 | when iterate k is the first to converge, the solver returns iterate k - 1, the one BEFORE the converged iterate |
| RtIntersect.NewtonReturnsLastIterateAtCap | hw7/assignment/src/assignment.cpp:186-209 | when no iterate up to the cap converges, the solver returns iterate MAX_ITERS unrejected |
| RtIntersect.NoHit | hw7/assignment/src/assignment.cpp:236-239 | the miss pair is (+inf, an intersection with no object) |
| RtIntersect.ClosestIsMinimal | hw7/assignment/src/assignment.cpp:286-295 | no child's hit is strictly closer than the fold's result |
| RtIntersect.ClosestIsFirstMinimum | hw7/assignment/src/assignment.cpp:286-295 | the fold is NoHit iff no hit is below +inf; otherwise it is one of the hits and every earlier hit is strictly farther or NaN, so ties go to the first child |
| RtIntersect.ChildHits | hw7/assignment/src/assignment.cpp:286-288 | the children's results, one per child in child order, each for the assembly-space ray |
| RtIntersect.ClosestIntersection | hw7/assignment/src/assignment.cpp:212-314 | the result is ClosestHit: a superquadric takes the ray into body space, runs the solver, returns NoHit on +inf and otherwise the body-space t with the surface ray carried back by Tk·…·T1; an assembly folds its children and carries the winner's location back unless its t is +inf |
| RtIntersect.ClosestChild | hw7/assignment/src/assignment.cpp:283-295 | the loop's result is the first strictly closest child hit, and no child reports a distance strictly below the assembly's |
| RtIntersect.ClosestHitShape | hw7/assignment/src/assignment.cpp:212-314 | a result at +inf is exactly NoHit, and any object a result names is a superquadric of the tree |
| RtIntersect.AssemblyDistanceIsClosestChild | hw7/assignment/src/assignment.cpp:286-313 | an assembly's distance is its closest child's, never rescaled; a child with the same distance as the winner comes no earlier than it |
| RtIntersect.SurfaceRay | hw7/assignment/src/assignment.cpp:242-250 | the body-space ray at a finite t: its origin is the point at t and its direction the superquadric's normal there; SuperquadricMissCases and ClosestHitShape state when it is built |
| RtIntersect.SuperquadricMissCases | hw7/assignment/src/assignment.cpp:230-263 | a superquadric reports +inf when the body-space guess is +inf and otherwise only when the iterate at the cap is +inf; any other result is a hit on that superquadric |
| RtObject.NewSuperquadric | hw7/assignment/src/object.cpp:69-76 | Superquadric(e0, e1) keeps both exponents, has 15 x 15 patches, the default material (ambient 0.2, diffuse 0.6, specular 0.4, shininess 10) and no transforms |
| RtObject.DefaultSuperquadric | hw7/assignment/src/object.cpp:65-67 | Superquadric() only discards a temporary: just the empty transform list and the default material are known |
| RtObject.At | hw7/assignment/src/object.cpp:219-221 | At(t) minus the origin is t times the direction |
| RtObject.Transformed | hw7/assignment/src/object.cpp:223-232 | the origin goes through the whole matrix as a point; the direction through the 3x3 block, so a translation never changes it |
| RtObject.TranslatedRay | hw7/assignment/src/object.cpp:223-232 | a translated ray starts d further along and keeps its direction |
| RtObject.BlockIsDirection | hw7/assignment/src/object.cpp:228-230 | the 3x3 block applied to d equals the full matrix applied to (d, 0) |
| RtObject.AffineKeepsPoints | hw7/assignment/src/object.cpp:225-227 | an affine matrix sends a point (w = 1) to a point |
| RtObject.TransformedTwice | hw7/assignment/src/object.cpp:223-242 | transforming by B then by affine A is transforming by A·B, which is why the loops fold the list into one matrix first |
| RtObject.TransformedAt | hw7/assignment/src/object.cpp:219-232 | under an affine matrix the transformed ray's point at t is the transformed point at t, so t found in body space is the distance in the parent space |
| RtObject.MutableRay.constructor | hw7/assignment/src/object.h:104-114 | a ray object holding the given origin and direction |
| RtObject.MutableRay.Transform | hw7/assignment/src/object.cpp:234-242 | Ray::Transform leaves the ray equal to Transformed of the old ray |
| RtObject.MutableRay.Normalize | hw7/assignment/src/object.cpp:244-248 | returns the old direction's length and leaves the direction divided by it (scaling back gives the old direction); the origin is unchanged |
| RtObject.EmptyIntersection | hw7/assignment/src/object.cpp:250-253 | Intersection() has no object |
| RtObject.MakeIntersection | hw7/assignment/src/object.cpp:255-258 | Intersection(loc, sq) stores both arguments unchanged |
| RtObject.NormalGradient | hw7/assignment/src/object.cpp:101-111 | a component is 0 wherever its coordinate is exactly 0 |
| RtObject.GetNormal | hw7/assignment/src/object.cpp:96-116 | a zero coordinate gives a zero component, and the result scaled by the guarded gradient's length is that gradient (a zero gradient is returned as it is) |
| RtObject.ZeroComponentStaysZero | hw7/assignment/src/object.cpp:113 | normalising keeps a zero component zero |
| RtScene.BuffersStayParallel | hw7/assignment/src/scene.cpp:11-19 | when every root yields as many normals as vertices, the two buffers stay the same length |
| RtScene.RootHits | hw7/assignment/src/scene.cpp:116-117 | one closest hit per root, in root order |
| RtScene.Scene.constructor | hw7/assignment/src/scene.h:15-28 | a new scene has no lights, no objects and empty buffers |
| RtScene.Scene.ReloadObjects | hw7/assignment/src/scene.cpp:11-19 | both buffers are emptied and then hold exactly the roots' tessellations in root order; nothing from before survives |
| RtScene.Scene.SetCamera | hw7/assignment/src/scene.h:41-47 | after SetCamera(c), GetCamera() returns c; nothing else changes |
| RtScene.Scene.AddLight | hw7/assignment/src/scene.h:49-55 | the light is appended, so GetLights lists lights in insertion order |
| RtScene.Scene.AddObject | hw7/assignment/src/scene.h:57-62 | a taken name keeps its existing entry (emplace does not overwrite); obj joins the roots exactly when isRoot, whether or not the name was new |
| RtScene.Scene.GetObject | hw7/assignment/src/scene.h:64-70 | the registered object, or none for an unknown name |
| RtScene.Scene.ClosestIntersection | hw7/assignment/src/scene.cpp:113-125 | the fold over the roots that keeps the first strictly closer hit; NoHit with no roots; no root reports a distance strictly below the result |
| RtScene.SceneTiesGoToFirstRoot | hw7/assignment/src/scene.cpp:116-122 | the result is NoHit or some root's hit, and every earlier root reports a strictly larger distance or NaN: ties go to the earliest root |
| RtTransform.RotationMatrix | hw7/assignment/src/transform.cpp:24-49 | the axis-angle matrix for an angle in degrees has an affine last row and column, and a zero angle gives the identity for any axis |
| RtTransform.ZeroRotationIsIdentity | hw7/assignment/src/transform.cpp:24-49 | a rotation by 0 degrees is the identity, whatever the axis |
| RtTransform.MatrixOf | hw7/assignment/src/transform.cpp:24-114 | GetMatrix of the rotation, translation or scaling a transform value names |
| RtTransform.Rotate.Default | hw7/assignment/src/transform.h:19 | the default rotation is 0 degrees about the x axis |
| RtTransform.Rotate.constructor | hw7/assignment/src/transform.cpp:13-18 | the stored axis is the given axis divided by its length (scaling back gives the axis); the angle is never assigned, so nothing is promised about it |
| RtTransform.Rotate.Value | hw7/assignment/src/transform.cpp:24-49 | the transform value the object stands for keeps its axis and angle |
| RtTransform.Rotate.GetMatrix | hw7/assignment/src/transform.cpp:24-49 | the rotation matrix of the stored axis and angle; the default rotation gives the identity |
| RtTransform.Rotate.SetAxisAngle | hw7/assignment/src/transform.cpp:59-65 | stores the normalised axis and the given angle, which GetAngle then returns |
| RtTransform.Translate.Default | hw7/assignment/src/transform.h:34 | the default translation is by zero and its matrix is the identity |
| RtTransform.Translate.constructor | hw7/assignment/src/transform.h:35 | GetDelta returns the given offsets |
| RtTransform.Translate.Value | hw7/assignment/src/transform.cpp:76-84 | the transform value keeps the offsets |
| RtTransform.Translate.GetMatrix | hw7/assignment/src/transform.cpp:76-84 | the matrix maps (x, y, z, 1) to (x + dx, y + dy, z + dz, 1) |
| RtTransform.Translate.SetDelta | hw7/assignment/src/transform.cpp:86-94 | after SetDelta(d), GetDelta() returns d |
| RtTransform.Scale.Default | hw7/assignment/src/transform.h:48 | the default scaling is by one and its matrix is the identity |
| RtTransform.Scale.constructor | hw7/assignment/src/transform.h:49 | GetScale returns the given factors |
| RtTransform.Scale.Value | hw7/assignment/src/transform.cpp:106-114 | the transform value keeps the factors |
| RtTransform.Scale.GetMatrix | hw7/assignment/src/transform.cpp:106-114 | the matrix is diag(sx, sy, sz, 1) |
| RtTransform.Scale.SetScale | hw7/assignment/src/transform.cpp:116-124 | after SetScale(s), GetScale() returns s |
| RtImage.Clamp01 | hw7/assignment/src/image.cpp:59-61 | fmin(fmax(0, v), 1) lies in [0, 1] and is v when v already does |
| RtImage.ChannelByte | hw7/assignment/src/image.cpp:59-61 | every byte is in [0, 255]; 0 and below give 0, 1 and above give 255 |
| RtImage.PixelBytes | hw7/assignment/src/image.cpp:58-61 | three bytes per pixel, red, green, blue |
| RtImage.RowBytes | hw7/assignment/src/image.cpp:55-62 | a row of count pixels is 3·count bytes |
| RtImage.RowBytesPixels | hw7/assignment/src/image.cpp:55-62 | pixel x of the row is bytes 3x to 3x + 2 of the row |
| RtImage.RowBytesInRange | hw7/assignment/src/image.cpp:55-62 | every byte SaveImage writes is in [0, 255] |
| RtImage.Image.Default | hw7/assignment/src/image.cpp:7-9 | Image() only discards a temporary: the pixel vector is empty and xres, yres are indeterminate |
| RtImage.Image.RowOf | hw7/assignment/src/image.cpp:55-62 | the inner loop over x yields the row's bytes |
| RtImage.Image.constructor | hw7/assignment/src/image.cpp:11-18 | xres = w, yres = h, and exactly w·h pixels, all (1, 1, 1) |
| RtImage.Image.SetPixel | hw7/assignment/src/image.cpp:20-22 | writes pixel x + xres·y and leaves every other pixel unchanged |
| RtImage.Image.SaveRows | hw7/assignment/src/image.cpp:46-63 | image row y (row 0 at the bottom) becomes file row yres - 1 - y, holding that row's clamped bytes |
| RtImage.RowsFit | hw7/assignment/src/image.cpp:58 | every row of an xres-wide image with yres rows ends inside the xres·yres buffer |
| Floats.DivPosZero | hw7/assignment/src/assignment.cpp:110-111 | a quotient by a positive or +0 denominator: finite with the numerator's sign for a positive denominator; +inf, -inf or NaN by the numerator's sign over +0 |
| Floats.DivNegZero | hw7/assignment/src/assignment.cpp:110-111 | the same for a negative or -0 denominator, with the signs flipped |
| Floats.LessIsStrictOrder | hw7/assignment/src/assignment.cpp:123-131 | IEEE `<` is irreflexive and transitive, and total except at NaN |
| Floats.SignsAreComparisons | hw7/assignment/src/assignment.cpp:123-131 | `> 0` and `< 0` are `<` against zero and never hold together |
| Bresenham.SmallPosLineGrows | hw2/src/generalized_bresenham.cpp:14-35 | while the walker's error term is the reference line's, the next pixel it inserts is the reference line's next pixel |
| Bresenham.SmallNegLineGrows | hw2/src/generalized_bresenham.cpp:44-65 | the same for the shallow falling walker |
| Bresenham.LargePosLineGrows | hw2/src/generalized_bresenham.cpp:74-95 | the same for the steep walker leaning right |
| Bresenham.LargeNegLineGrows | hw2/src/generalized_bresenham.cpp:104-125 | the same for the steep walker leaning left |
| Bresenham.OnLine | hw2/src/generalized_bresenham.cpp:14-35 | a doubled error term in [-major, major) means the walker sits on the reference line |
| Bresenham.ErrStep | hw2/src/generalized_bresenham.cpp:25-33 | one step adds minor to the error term and, when twice the sum reaches major, also steps the minor coordinate and takes major away; the error term stays the line's and twice it stays in [-major, major) |
| Bresenham.OffsetStep | hw2/src/generalized_bresenham.cpp:20-35 | with 0 <= dy <= dx, y starts at y0, never decreases and rises by at most 1 per column |
| Bresenham.OffsetBounded | hw2/src/generalized_bresenham.cpp:20-35 | within the major extent the minor coordinate stays within 0 .. minor |
| Bresenham.SmallPos | hw2/src/generalized_bresenham.cpp:13-36 | only inserts, only in columns x0 <= x < x1 (column x1 excluded), nothing when x1 <= x0; for 0 <= dy <= dx it inserts exactly the reference shallow line |
| Bresenham.SmallNeg | hw2/src/generalized_bresenham.cpp:43-66 | the same with y never rising, for 0 <= -dy <= dx |
| Bresenham.LargePos | hw2/src/generalized_bresenham.cpp:73-96 | only inserts, one pixel per row y0 <= y <= y1 (end row included); for 0 <= dx <= dy exactly the reference steep line |
| Bresenham.LargeNeg | hw2/src/generalized_bresenham.cpp:103-126 | the same with x never moving right, for 0 <= -dx <= dy |
| Bresenham.ProductPositive | hw2/src/generalized_bresenham.cpp:135 | dx·dy > 0 exactly when both deltas are positive or both negative |
| Bresenham.GeneralizedBresenham | hw2/src/generalized_bresenham.cpp:131-192 | adds exactly the pixels of Segment, the case table of the dispatcher with its strict swap guards |
| Bresenham.PositiveSlope | hw2/src/generalized_bresenham.cpp:135-156 | the dx·dy > 0 branch: swapped when both deltas are negative, then the small walker if dx >= dy and the large one otherwise; adds exactly Segment |
| Bresenham.NegativeSlope | hw2/src/generalized_bresenham.cpp:158-191 | the dx·dy <= 0 branch, by abs(dx) >= abs(dy); adds exactly Segment |
| Bresenham.ShallowFalling | hw2/src/generalized_bresenham.cpp:160-174 | swapped only when dy > 0 and dx < 0, then the small negative walker; adds exactly Segment |
| Bresenham.SteepFalling | hw2/src/generalized_bresenham.cpp:176-190 | swapped only when dy < 0 and dx > 0, then the large negative walker; adds exactly Segment |
| Bresenham.SmallPosLineShape | hw2/src/generalized_bresenham.cpp:13-36 | a shallow rising line starts at (x0, y0) and holds exactly one pixel per column x0 .. x0 + dx - 1, at the rounded height |
| Bresenham.SmallNegLineShape | hw2/src/generalized_bresenham.cpp:43-66 | a shallow falling line starts at (x0, y0) and holds exactly one pixel per column, never above y0 |
| Bresenham.LargePosLineShape | hw2/src/generalized_bresenham.cpp:73-96 | a steep line leaning right holds exactly one pixel per row y0 .. y0 + dy, within x0 .. x0 + dx |
| Bresenham.LargeNegLineShape | hw2/src/generalized_bresenham.cpp:103-126 | a steep line leaning left holds exactly one pixel per row, within x0 - back .. x0 |
| Bresenham.SegmentInBox | hw2/src/generalized_bresenham.cpp:131-192 | every pixel of a segment lies in the bounding box of its endpoints |
| Bresenham.SegmentStart | hw2/src/generalized_bresenham.cpp:157-190 | a segment draws nothing exactly when it is a single point, horizontal running left, or vertical running down; every other segment contains the endpoint it is drawn from |
| Bresenham.SegmentEnds | hw2/src/generalized_bresenham.cpp:20-22 | a shallow segment never contains its right-hand endpoint; a steep one contains both endpoints unless it is vertical and drawn downwards |
| Bresenham.OffsetAtEnd | hw2/src/generalized_bresenham.cpp:80-95 | after major steps the rounded offset has covered the whole minor extent |
| Bresenham.SegmentDependsOnDirection | hw2/src/generalized_bresenham.cpp:157-190 | as written, the vertical segment (0,1)→(0,0) and the horizontal (1,0)→(0,0) draw nothing while the same segments drawn the other way draw (0,0) |
| Bresenham.FixedSegmentSymmetric | hw2/src/generalized_bresenham.cpp:157-190 | with the swap guards widened to >= and <=, swapping the endpoints never changes the pixels, and only a single point draws nothing |
| Bresenham.FixedBresenham | hw2/src/generalized_bresenham.cpp:131-192 | the dispatcher with the widened guards adds exactly FixedSegment |
| Hw2Object.ToCartesian | hw2/src/object.cpp:29-34 | w becomes 1 and the new x, y, z times the old w are the old x, y, z; the sentinel stays the sentinel |
| Hw2Object.ToCartesianOfMultiple | hw2/src/object.cpp:29-34 | homogeneous coordinates that differ by a nonzero factor divide to the same vertex, and dividing twice changes nothing |
| Hw2Object.IsContained | hw2/src/object.cpp:36-41 | -1 <= x <= 1 and -1 <= y <= 1; ContainmentIgnoresDepth states that depth and w play no part and that the sentinel is never contained, and ScreenBounds that a contained vertex lands on the screen grid |
| Hw2Object.ContainmentIgnoresDepth | hw2/src/object.cpp:36-41 | is_contained looks at x and y only, and the sentinel is never contained |
| Hw2Object.ToScreen | hw2/src/object.cpp:43-49 | (floor((x + 1)·xres/2), floor(yres - (y + 1)·yres/2)) with z and w kept |
| Hw2Object.ScreenBounds | hw2/src/object.cpp:43-49 | a contained vertex lands in columns 0 .. xres and rows 0 .. yres, both ends included |
| Hw2Object.ScreenMonotone | hw2/src/object.cpp:43-49 | the mapping keeps the order of x and reverses that of y |
| Hw2Object.ScreenCorners | hw2/src/object.cpp:43-49 | NDC (-1, 1) maps to cell (0, 0) and NDC (1, -1) to column xres and row yres |
| Hw2Object.GetScreenCoordinates | hw2/src/object.cpp:79-90 | the sentinel first, then the screen position of every later vertex; as long as the vertex list |
| Hw2Object.DrawLine | hw2/src/generalized_bresenham.cpp:131-192 | the pixel set grows by exactly the as-written segment or the corrected one |
| Hw2Object.GetPixels | hw2/src/object.cpp:92-128 | the union over the faces of each edge whose two ends are both contained, drawn by generalized_bresenham as written (or by the corrected drawer) |
| Hw2Object.FacesPixelsStep | hw2/src/object.cpp:96-126 | the pixels of the first i + 1 faces are those of the first i and of face i |
| Hw2Object.AddFace | hw2/src/object.cpp:98-125 | one iteration adds the face's three edges v1v2, v2v3, v1v3, each only when both ends are contained |
| Hw2Object.UpwardEdgeLost | hw2/src/object.cpp:109-113 | as written, an edge whose second end lies straight above the first on the screen draws nothing, while the corrected drawer draws both ends of it |
| Hw2Object.UpwardEdgeExample | hw2/src/object.cpp:109-113 | such an edge exists: in a 10 by 10 window NDC (0, -0.6) and (0, 0) are contained and map to column 5, rows 8 and 5 |
| Hw2Object.VerticalSegmentDirections | hw2/src/generalized_bresenham.cpp:176-190 | a vertical segment drawn downwards is empty and drawn upwards contains both ends |
| Hw2Object.CorrectedEdgeSymmetric | hw2/src/object.cpp:109-125 | with the corrected drawer an edge is the same whichever end comes first, and equals the program's edge wherever the program draws one |
| Hw2Object.FixedSegmentInBox | hw2/src/generalized_bresenham.cpp:131-192 | a corrected segment stays in the bounding box of its endpoints |
| Hw2Object.PixelsOnScreen | hw2/src/object.cpp:92-128 | every pixel get_pixels reports lies in columns 0 .. xres and rows 0 .. yres, one past an xres by yres grid |
| Hw2Object.TransformVertex | hw2/src/object.cpp:157-163 | M·v divided by its w: a vertex with w = 1 |
| Hw2Object.GetTransformedVerticesBy | hw2/src/object.cpp:152-167 | the sentinel, then M·v divided by w for every later vertex; the length is kept and every entry after the sentinel has w = 1 |
| Hw2Object.GetTransformedVertices | hw2/src/object.cpp:135-150 | the same with the object's own product Tk·…·T1, recomputed per vertex |
| Hw2Parser.DecimalShow | hw2/src/parser.cpp:44-52 | reading back the decimal digits of n gives n |
| Hw2Parser.FaceTokenRoundTrip | hw2/src/parser.cpp:44-52 | the intended reading of a face token "i//n" gives back both indices it was written from |
| Hw2Parser.FaceOf | hw2/src/parser.cpp:44-52 | the face of an "f" line: each vertex index is its token's first character minus '0' and each normal index its last; SingleDigitAgrees and SingleDigitMisreadsTwelve state what that reads |
| Hw2Parser.SingleDigitAgrees | hw2/src/parser.cpp:44-52 | for single-digit indices the reading as written (first and last character) is the intended one |
| Hw2Parser.SingleDigitMisreadsTwelve | hw2/src/parser.cpp:44-52 | the token "12//12" is read as vertex 1 with normal 2 |
| Hw2Parser.ParseObject | hw2/src/parser.cpp:10-64 | the object read from the stream, starting from a vertex list holding only the sentinel, with face indices taken from the first and last character of each token |
| Hw2Parser.CreateObject | hw2/src/parser.cpp:82-98 | parse_object on the named file, or nothing when the file cannot be opened |
| Hw2Parser.ShadedFromExtends | hw2/src/parser.cpp:25-63 | reading only appends: what was built stays in front and the vertex list keeps its sentinel |
| Hw2Parser.OtherRecordStops | hw2/src/parser.cpp:57-60 | a record of any other type ends the reading, whatever follows |
| Hw2Parser.PrintedFaceReads | hw2/src/parser.cpp:40-55 | a written face record with single-digit indices reads back as the face it was written from |
| Hw2Scene.InUnion | hw2/src/scene.cpp:130-142 | an element is in the union exactly when it is in one of the sets |
| Hw2Scene.ObjectPixelSets | hw2/src/scene.cpp:135-139 | one pixel set per object, in list order |
| Hw2Scene.ScenePixelsAreUnion | hw2/src/scene.cpp:130-142 | a pixel belongs to the scene exactly when it belongs to some object |
| Hw2Scene.ScenePixelsOnScreen | hw2/src/scene.cpp:130-142 | every pixel of the scene lies in [0, xres] x [0, yres] |
| Hw2Scene.ToNdc | hw2/src/scene.cpp:118-128 | (perspective · camera⁻¹) · v, then the divide by w; NdcIsCameraThenPerspective proves it equals the camera pass followed by the perspective pass |
| Hw2Scene.NdcIsCameraThenPerspective | hw2/src/scene.cpp:118-128 | to_ndc_coordinates gives the vertex the camera pass followed by the perspective pass gives, although the passes divide by w twice |
| Hw2Scene.TransformTwice | hw2/src/scene.cpp:118-128 | transforming by B then by A, each followed by the divide, is transforming by A·B |
| Hw2Scene.DivideThenApply | hw2/src/scene.cpp:118-128 | dividing by w between two matrices changes nothing once the result is divided again |
| Hw2Scene.CartesianIsScaled | hw2/src/object.cpp:29-34 | the divided column is the column times 1/w |
| Hw2Scene.ScaledCartesian | hw2/src/object.cpp:29-34 | a column and a nonzero multiple of it divide to the same vertex |
| Hw2Scene.ApplyScale | hw2/src/scene.cpp:123 | matrices are linear: M·(k·v) = k·(M·v) |
| Hw2Scene.Scene.Default | hw2/include/scene.h:68-80 | defaults everywhere, no objects, no lights, resolution 0 x 0 |
| Hw2Scene.Scene.constructor | hw2/src/parser.cpp:286 | the given camera, perspective, lights and resolution, and no objects |
| Hw2Scene.Scene.AddLabeled | hw2/src/scene.cpp:63-65 | appends exactly one entry at the end |
| Hw2Scene.Scene.AddLabeledObject | hw2/src/scene.cpp:67-70 | the same with the labelled pair built first |
| Hw2Scene.Scene.ApplyGeometricTransforms | hw2/src/scene.cpp:72-78 | every object's vertices replaced by its transformed list; count, labels, faces and transformations stay |
| Hw2Scene.Scene.ApplyCameraTransforms | hw2/src/scene.cpp:80-88 | every object's vertices mapped by the inverse camera product, into camera space |
| Hw2Scene.Scene.ApplyPerspectiveTransform | hw2/src/scene.cpp:90-96 | every object's vertices mapped by the perspective matrix and divided by w |
| Hw2Scene.Scene.TransformEach | hw2/src/scene.cpp:80-96 | each object's vertices replaced by get_transformed_vertices(obj, mat) |
| Hw2Scene.Scene.GetScreenCoordinates | hw2/src/scene.cpp:111-116 | every object's vertices moved from NDC to the screen |
| Hw2Scene.Scene.GetPixels | hw2/src/scene.cpp:130-142 | the union of every object's pixel set |
| Rasterization.InTriangle | hw2/src/rasterization.cpp:6-8 | a finite value in [0, 1], so infinities and NaN fail; InTriangleIsComparison proves this is exactly the source's two IEEE comparisons |
| Rasterization.InTriangleIsComparison | hw2/src/rasterization.cpp:6-8 | in_triangle(v) is exactly 0 <= v and v <= 1 under IEEE comparison |
| Rasterization.EdgeFunction | hw2/src/rasterization.cpp:11-13 | compute_function vanishes at both points |
| Rasterization.EdgeFunctionAntisymmetric | hw2/src/rasterization.cpp:11-13 | swapping the two points negates it |
| Rasterization.EdgeFunctionsOfTriangle | hw2/src/rasterization.cpp:16-34 | the three denominators are the triangle's area up to sign, and the three numerators at any point add up to it |
| Rasterization.Area | hw2/src/rasterization.cpp:16-19 | compute_alpha's denominator f_bc(a), twice the signed area; EdgeFunctionsOfTriangle proves the beta and gamma denominators are -Area and Area |
| Rasterization.Alpha | hw2/src/rasterization.cpp:15-20 | f_bc(p) / f_bc(a) as an IEEE quotient; BarycentricAtCorners, BarycentricSum and DegenerateTriangleHasNoInside state its meaning |
| Rasterization.Beta | hw2/src/rasterization.cpp:22-27 | f_ac(p) / f_ac(b) as an IEEE quotient; the same lemmas state its meaning |
| Rasterization.Gamma | hw2/src/rasterization.cpp:29-34 | f_ab(p) / f_ab(c) as an IEEE quotient; the same lemmas state its meaning |
| Rasterization.Quotient | hw2/src/rasterization.cpp:16-34 | a nonzero divisor gives the finite quotient; a zero divisor gives a value that fails in_triangle |
| Rasterization.BarycentricAtCorners | hw2/src/rasterization.cpp:16-34 | for a non-degenerate triangle alpha, beta, gamma are (1, 0, 0) at a, (0, 1, 0) at b and (0, 0, 1) at c |
| Rasterization.BarycentricSum | hw2/src/rasterization.cpp:16-34 | for a non-degenerate triangle the three are finite and sum to 1 at every point |
| Rasterization.DegenerateTriangleHasNoInside | hw2/src/rasterization.cpp:16-34 | for a degenerate triangle every coordinate is non-finite, so in_triangle fails everywhere |
| Rasterization.AddColors | hw2/src/rasterization.cpp:59-64 | alpha·ca + beta·cb + gamma·cc channel by channel; AddColorsInterpolates, ShadeColorInRange and ShadeWeights state what it gives |
| Rasterization.AddColorsInterpolates | hw2/src/rasterization.cpp:59-64 | unit weights give the corner's colour back, and weights summing to 1 keep a colour the three corners share |
| Rasterization.ConvexBetween | hw2/src/rasterization.cpp:59-64 | a convex combination of three values lies between their least and greatest |
| Rasterization.InsideMeansWeights | hw2/src/rasterization.cpp:95-104 | when all three coordinates pass in_triangle they are weights in [0, 1] that sum to 1 |
| Rasterization.DepthNeverIncreases | hw2/src/rasterization.cpp:106-112 | the depth test only lowers the buffer; a cell offered nothing keeps depth and colour |
| Rasterization.OfferOnlyInBox | hw2/src/rasterization.cpp:71-90 | nothing is offered outside the bounding box, and a back-facing triangle offers nothing |
| Rasterization.ShadeDepthBetween | hw2/src/rasterization.cpp:95-110 | every fragment's depth lies between the corners' depths |
| Rasterization.ShadeColorInRange | hw2/src/rasterization.cpp:95-112 | corner colours in [0, 1] give fragment colours in [0, 1] |
| Rasterization.Shade | hw2/src/rasterization.cpp:83-111 | the fragment one cell of the bounding box gets: none outside the box, outside the triangle or outside the view volume; ShadeWeights, ShadeDepthBetween and ShadeColorInRange state its depth and colour |
| Rasterization.ShadeWeights | hw2/src/rasterization.cpp:95-112 | each fragment's depth and colour are a convex combination of the corners' with the barycentric weights |
| Rasterization.ShadeAtCorner | hw2/src/rasterization.cpp:83-112 | a contained corner of a triangle not degenerate on screen is offered to its own cell with its own depth and colour |
| Rasterization.CornerCellPastRowEnd | hw2/src/rasterization.cpp:83-112 | the front-facing triangle NDC (1, 1), (-1, 1), (1, -1) offers a fragment to cell (xres, 0), one past the end of a row of the xres-wide buffers |
| Rasterization.RasterColoredTriangle | hw2/src/rasterization.cpp:67-116 | with the bounding box clipped to the grid: every cell ends with the depth test's result against what the triangle offers it, and a back-facing triangle changes nothing |
| Rasterization.RasterColumn | hw2/src/rasterization.cpp:93-114 | one column of the box: each cell of it gets the depth test's result, every other cell is left alone |
| Rasterization.RasterCell | hw2/src/rasterization.cpp:95-113 | only cell (x, y) can change, to the depth test's result |
| Hw3Transform.TransformSet.constructor | hw5/include/transform.h:61 | no transformations |
| Hw3Transform.TransformSet.AddRotation | hw3/src/transform.cpp:22-24 | appends one rotation record with its axis and angle |
| Hw3Transform.TransformSet.AddTranslation | hw3/src/transform.cpp:26-28 | appends one translation record with angle 0 |
| Hw3Transform.TransformSet.AddScaling | hw3/src/transform.cpp:30-32 | appends one scaling record with angle 0 |
| Hw3Transform.PrintTransformation | hw3/src/transform.cpp:8-20 | the tokens "t:", "r:" or "s:" and the record's numbers joined by spaces, the angle only for a rotation; PrintedTransformReads proves the line reads back as the record |
| Hw3Transform.PrintTransformSet | hw3/src/transform.cpp:8-20 | one line per record, in order: "t:", "r:" or "s:" and its numbers |
| Hw3Transform.FromSpec | hw5/include/transform.h:40-47 | a record built by one of the two constructors: only a rotation carries an angle |
| Hw3Transform.SpecCorrespondence | hw5/include/transform.h:40-47 | records and transformation descriptions correspond one to one |
| Hw3Transform.PrintedTransformReads | hw3/src/transform.cpp:8-20 | a printed line reads back through create_transformation's line reader as the record it was printed from |
| Hw5Object.Object.constructor | hw5/include/object.h:114 | everything empty and the default material |
| Hw5Object.Object.FromLists | hw5/include/object.h:119-120 | the given vertex and face lists, everything else empty |
| Hw5Object.Object.Add | hw5/src/object.cpp:56-58 | appends the vertex and changes nothing else |
| Hw5Object.Object.AddFace | hw5/src/object.cpp:60-62 | appends the face and changes nothing else |
| Hw5Object.Object.AddVertexToBuffer | hw5/src/object.cpp:70-80 | appends to the vertex buffer and changes nothing else; get_vertex then reads it back at the old length |
| Hw5Object.Object.GetVertex | hw5/src/object.cpp:78-80 | entry i of the vertex buffer, not of the vertex list; AddVertexToBuffer ensures it returns the vertex just appended |
| Hw5Object.Object.GetVertexNormal | hw5/src/object.cpp:82-84 | entry i of the normal buffer; AddNormalToBuffer ensures it returns the normal just appended |
| Hw5Object.Object.AddNormalToBuffer | hw5/src/object.cpp:74-84 | appends to the normal buffer and changes nothing else; get_vertex_normal then reads it back at the old length |
| Hw5Parser.ParseObject | hw5/src/parser.cpp:12-52 | a fresh Object holding what the stream yields after the sentinel (types compared as whole words), with empty buffers and transformations |
| Hw5Parser.CreateObject | hw5/src/parser.cpp:70-86 | parse_object on the named file; None (the throw) exactly when the file cannot be opened |
| Hw5Parser.PrintedFaceReads | hw5/src/parser.cpp:36-44 | with an atoi that reads decimals, a face with indices of any number of digits reads back as itself |
| Hw5Parser.OtherRecordStops | hw5/src/parser.cpp:46-49 | a record of any other type, "vn" included, ends the reading |
| Hw5Parser.SpecTransforms | hw5/src/parser.cpp:190-202 | one record per transformation line, in file order, each corresponding to its line |
| Hw5Parser.CreateTransformation | hw5/src/parser.cpp:177-208 | None when a line throws; otherwise a fresh Transform_Set with the block's records in file order, and reading goes on after the empty line |
| Hw5Parser.AddLine | hw5/src/parser.cpp:184-205 | a line of known type with enough numbers appends its record; any other line throws and changes nothing |
| Hw5Parser.PrintedSetReadsBack | hw5/src/parser.cpp:177-208 | a set printed by print_transform_set and closed by an empty line reads back as the same records |
| Halfedge.NextOut | hw5/src/halfedge.cpp:46 | he->flip->next is again a halfedge of the mesh |
| Halfedge.HalfedgeMesh.FaceNormal | hw5/src/halfedge.cpp:58-69 | (v2 - v1) × (v3 - v1): orthogonal to both edges leaving v1 |
| Halfedge.HalfedgeMesh.FaceArea | hw5/src/halfedge.cpp:71-75 | half the normal's length; never negative when sqrt is a square root |
| Halfedge.HalfedgeMesh.Walk | hw5/src/halfedge.cpp:37-49 | k steps of he->flip->next from h stay within the mesh |
| Halfedge.HalfedgeMesh.ComputeVertexNormal | hw5/src/halfedge.cpp:28-56 | vertex v's normal becomes the area-weighted sum of the normals of the faces round it, divided by its length; every other vertex is unchanged |
| Halfedge.HalfedgeMesh.RingNormalSum | hw5/src/halfedge.cpp:33-49 | the do-while sums area · normal over the k faces of the ring, each once |
| Halfedge.HalfedgeMesh.RingNotClosed | hw5/src/halfedge.cpp:49 | a walk that is not back at its start has taken fewer than k steps |
| Halfedge.HalfedgeMesh.AddRingFace | hw5/src/halfedge.cpp:39-46 | one pass adds the weighted normal of he's face and moves one step round the ring |
| Halfedge.HalfedgeMesh.FlatRing | hw5/src/halfedge.cpp:33-49 | where every face round the vertex has normal n, the sum is n times the total area |
| Halfedge.CreateMeshData | hw5/src/halfedge.cpp:3-26 | NULL first, then a copy of each vertex from index 1 on, and a copy of every face |
| ImplicitFairing.IndexVertices | hw5/src/implicit_fairing.cpp:5-10 | vertex i >= 1 gets index i; entry 0 and every other field stay |
| ImplicitFairing.Cot | hw5/src/implicit_fairing.cpp:33-38 | dot(a, b) / norm(cross(a, b)), the cotangent of the angle between a and b; CotSymmetric proves it symmetric and 0 for a right angle |
| ImplicitFairing.CotanSum | hw5/src/implicit_fairing.cpp:21-42 | cot α + cot β for the angles at m and n facing edge ij; CotanSumSymmetric proves it belongs to the edge |
| ImplicitFairing.CotSymmetric | hw5/src/implicit_fairing.cpp:35-38 | dot / norm(cross) is symmetric in its two edges, and 0 for a right angle |
| ImplicitFairing.CotanSumSymmetric | hw5/src/implicit_fairing.cpp:21-42 | the cotangent sum belongs to the edge: swapping i and j, or m and n, gives the same value |
| ImplicitFairing.FillPrefix | hw5/src/implicit_fairing.cpp:88-103 | one more insert puts cs[t]/d into column ns[t] - 1 and adds cs[t] to the sum |
| ImplicitFairing.FillUpToNext | hw5/src/implicit_fairing.cpp:90-101 | one more pass inserts c/d into column j - 1 and adds c to the sum |
| ImplicitFairing.FillUpToAll | hw5/src/implicit_fairing.cpp:88-103 | after all passes the row is the filled row and the sum is the total weight |
| ImplicitFairing.FillUntouched | hw5/src/implicit_fairing.cpp:98 | a column no neighbour names stays zero |
| ImplicitFairing.FillEntry | hw5/src/implicit_fairing.cpp:98 | with distinct neighbours, column ns[t] - 1 holds cs[t]/d |
| ImplicitFairing.FillSum | hw5/src/implicit_fairing.cpp:97-98 | with distinct neighbours the filled row sums to the total weight over d |
| ImplicitFairing.RingRowSum | hw5/src/implicit_fairing.cpp:97-108 | the diagonal -Σc/(2A) cancels the neighbour weights: the row sums to zero |
| ImplicitFairing.RingRowEntries | hw5/src/implicit_fairing.cpp:97-108 | each neighbour's column holds its weight, the diagonal the negated total, every other column zero |
| ImplicitFairing.RingRowFromFill | hw5/src/implicit_fairing.cpp:107-108 | writing the diagonal after the inserts gives the ring row |
| ImplicitFairing.RingRowAt | hw5/src/implicit_fairing.cpp:98 | a neighbour's column holds its weight over 2A |
| ImplicitFairing.RingSeqIsRing | hw5/src/implicit_fairing.cpp:88-103 | the ring's halfedges are the walk by he->flip->next, which closes after a full turn |
| ImplicitFairing.NeighboursAt | hw5/src/implicit_fairing.cpp:90 | entry u is he->next->vertex->index for the u-th halfedge |
| ImplicitFairing.CotsAt | hw5/src/implicit_fairing.cpp:93 | entry u is the cotangent sum of the u-th halfedge's edge |
| ImplicitFairing.RowOfRing | hw5/src/implicit_fairing.cpp:80-108 | above epsilon the row is the ring row of i's neighbours with divisor 2A |
| ImplicitFairing.RowSumsToZero | hw5/src/implicit_fairing.cpp:69-109 | every row of F sums to zero, a skipped row included |
| ImplicitFairing.BuildRow | hw5/src/implicit_fairing.cpp:71-108 | one iteration of the vertex loop builds exactly row i - 1 of F |
| ImplicitFairing.WalkRing | hw5/src/implicit_fairing.cpp:88-103 | the do-while leaves the row and sum of all the inserts round the ring |
| ImplicitFairing.InsertNeighbour | hw5/src/implicit_fairing.cpp:90-101 | one pass adds one insert and moves to the next halfedge of the ring |
| ImplicitFairing.RingStep | hw5/src/implicit_fairing.cpp:90-101 | the neighbour index, its cotangent sum and he->flip->next |
| ImplicitFairing.RowClosed | hw5/src/implicit_fairing.cpp:103-108 | back at the start, writing the diagonal completes the row |
| ImplicitFairing.OperatorRowSum | hw5/src/implicit_fairing.cpp:115 | a row of I - h·F sums to 1 when F's row sums to 0 |
| ImplicitFairing.FRows | hw5/src/implicit_fairing.cpp:69-109 | row r of F is vertex r + 1's row |
| ImplicitFairing.OperatorRowsSumToOne | hw5/src/implicit_fairing.cpp:54-116 | every row of I - h·F sums to one |
| ImplicitFairing.BuildFOperator | hw5/src/implicit_fairing.cpp:54-116 | exactly I - h·F with F built row by row as above |
| ImplicitFairing.Solve | hw5/src/implicit_fairing.cpp:138-173 | every real vertex ends at its solved position with its index set; the NULL entry is untouched |
| ImplicitFairing.GatherCoordinates | hw5/src/implicit_fairing.cpp:156-160 | the x, y and z coordinates of vertices 1 .. n - 1 |
| ImplicitFairing.WriteBack | hw5/src/implicit_fairing.cpp:168-172 | vertex i >= 1 takes (x[i - 1], y[i - 1], z[i - 1]); nothing else changes |
| ImplicitFairing.TranslationCommutes | hw5/src/implicit_fairing.cpp:115-131 | since every row of I - h·F sums to one, moving all vertices by c moves an exact solution by c |
| ImplicitFairing.OperatorUnitRow | hw5/src/implicit_fairing.cpp:80-82 | a zero row of F gives an identity row of I - h·F |
| ImplicitFairing.UnitRowPicks | hw5/src/implicit_fairing.cpp:131 | an exact solver keeps the right-hand side's entry at an identity row |
| ImplicitFairing.SkippedRowIsUnit | hw5/src/implicit_fairing.cpp:80-82 | a vertex whose neighbour area is at most epsilon has an identity row in I - h·F |
| ImplicitFairing.UnitRowKeepsPosition | hw5/src/implicit_fairing.cpp:163-172 | with an exact solver an identity row keeps its vertex in place |
| ImplicitFairing.SkippedVertexKeepsPosition | hw5/src/implicit_fairing.cpp:80-82 | a vertex whose neighbour area is at most epsilon keeps its position, with an exact solver |
| Quaternions.Normalize | hw3/src/quarternion.cpp:43-49 | the quaternion normalize leaves: scaling it back by the norm gives the original |
| Quaternions.ScalarDot | hw3/src/quarternion.cpp:15-17 | every component times c; AdditiveLaws, MulScaleRight and InverseIsInverse state its use |
| Quaternions.AdditiveLaws | hw3/src/quarternion.cpp:7-17 | q − q is zero, scaling by 1 and adding zero leave q unchanged |
| Quaternions.Mul | hw3/src/quarternion.cpp:19-33 | the quaternion product written out component by component; HamiltonForm, IdentityIsUnit, TimesConjugate and InverseIsInverse state its laws |
| Quaternions.HamiltonForm | hw3/src/quarternion.cpp:19-33 | the product is s_a·s_b − v_a·v_b in the real part and s_a·v_b + s_b·v_a + v_a × v_b in the vector part |
| Quaternions.IdentityIsUnit | hw3/src/quarternion.cpp:62-64 | the identity is a unit for the product on both sides |
| Quaternions.ConjugateInvolution | hw3/src/quarternion.cpp:35-37 | conjugating twice gives q back |
| Quaternions.TimesConjugate | hw3/src/quarternion.cpp:35-41 | q times its conjugate is the real quaternion (norm², 0) |
| Quaternions.MulScaleRight | hw3/src/quarternion.cpp:15-33 | scaling the right factor scales the product |
| Quaternions.InverseIsInverse | hw3/src/quarternion.cpp:51-55 | with a non-zero norm, q times inverse(q) is the identity |
| Quaternions.Norm | hw3/src/quarternion.cpp:39-41 | the square root of s² + x² + y² + z²; NormSquaredNonNegative and NonZeroNorm state its meaning |
| Quaternions.NormSquaredNonNegative | hw3/src/quarternion.cpp:39-41 | the squared norm is never negative and its square root is the norm |
| Quaternions.NormalizeIsUnit | hw3/src/quarternion.cpp:43-49 | for a non-zero q, normalize is defined and leaves a quaternion of squared norm 1 |
| Quaternions.NonZeroNorm | hw3/src/quarternion.cpp:39-41 | a non-zero squared norm gives a non-zero norm, so normalize and inverse are defined |
| Quaternions.Rot2Quar | hw3/src/quarternion.cpp:57-60 | (cos(θ/2), sin(θ/2)·u) for the axis u and angle θ; Rot2QuarIsUnit states that a unit axis gives a unit quaternion |
| Quaternions.Rot2QuarIsUnit | hw3/src/quarternion.cpp:57-60 | a unit axis gives a unit quaternion whatever the angle |
| Quaternions.Quar2Rot | hw6/Part2/Bunny_Frames/src/quaternion.cpp:74-105 | the matrix's last row is (0, 0, 0, 1) and its last column is zero above it |
| Quaternions.Quar2RotIdentity | hw6/Part2/Bunny_Frames/src/quaternion.cpp:74-105 | the identity quaternion gives the identity matrix |
| Quaternions.Quar2RotFixesAxis | hw6/Part2/Bunny_Frames/src/quaternion.cpp:74-105 | the matrix leaves the quaternion's own vector part (its rotation axis) fixed |
| VectorHelpers.AddAndScaleLaws | hw5/src/object.cpp:8-15 | add is commutative with the zero vector as unit; scaling by 1 changes nothing |
| VectorHelpers.ScaleDistributes | hw5/src/object.cpp:8-15 | scaling distributes over add |
| VectorHelpers.DotLaws | hw5/src/object.cpp:31-33 | dot is symmetric and v·v is never negative |
| VectorHelpers.CrossOrthogonal | hw5/src/object.cpp:36-41 | the cross product is orthogonal to both arguments |
| VectorHelpers.CrossAntisymmetric | hw5/src/object.cpp:36-41 | swapping the arguments negates the cross product |
| VectorHelpers.DivideByNorm | hw5/src/object.cpp:23-28 | normalize(Vertex&): scaling the result back by the norm gives v |
| VectorHelpers.DivideByNormIsNormalized | hw6/Part2/I_Bar/src/vertex.cpp:24-29 | for a vector of positive length the result is v / ‖v‖, the unit vector along v |
| VectorHelpers.NormalizeArray | hw6/Part2/src/utils.cpp:12-17 | the array's three entries become the input vector divided by its norm |
| VectorHelpers.Deg2Rad | hw6/Part2/src/utils.cpp:20-23 | degs · π / 180; AngleConversions proves it inverse to Rad2Deg and that 180 degrees is π |
| VectorHelpers.Rad2Deg | hw6/Part2/src/utils.cpp:26-29 | rads · 180 / π; AngleConversions proves it inverse to Deg2Rad |
| VectorHelpers.AngleConversions | hw6/Part2/src/utils.cpp:20-29 | rad2deg and deg2rad are inverse to each other, and 180 degrees is π |
| CatmullRom.InterpolatedValue | hw6/Part2/Bunny_Frames/src/keyframe.cpp:293-311 | find_interpolated_value: (1, u, u², u³)·(B·p) with the Catmull-Rom basis B of tension 0; InterpolatedValueEnds and InterpolatedValueConstant state what it means |
| CatmullRom.InterpolatedValueEnds | hw6/Part2/Bunny_Frames/src/keyframe.cpp:293-311 | the spline value is p1 at u = 0 and p2 at u = 1 |
| CatmullRom.InterpolatedValueConstant | hw6/Part2/Bunny_Frames/src/keyframe.cpp:293-311 | four equal control values give that value for every u |
| CatmullRom.InterpolatedVec3Ends | hw6/Part2/Bunny_Frames/src/keyframe.cpp:314-319 | each coordinate passes through p1 at u = 0 and p2 at u = 1 |
| CatmullRom.InterpolatedVec3Constant | hw6/Part2/Bunny_Frames/src/keyframe.cpp:314-319 | four equal points give that point for every u |
| CatmullRom.StepParameter | hw6/Part2/Bunny_Frames/src/keyframe.cpp:355-366 | the k-th value u = k / n of the u loop lies strictly between 0 and 1 |
| FrameCycle.Advance | hw6/Part2/Bunny_Frames/src/keyframe.cpp:276-283 | the next frame index is below the number of frames |
| FrameCycle.AdvanceStep | hw6/Part2/Bunny_Frames/src/keyframe.cpp:276-283 | from frame c one press goes to c + 1, or back to 0 from the last frame |
| FrameCycle.CycleShowsEveryFrame | hw6/Part2/Bunny_Frames/src/keyframe.cpp:276-283 | k presses from c show c + 1 .. n − 1, then 0 onwards, and n presses return to c |
| FrameCycle.Animation.constructor | hw6/Part2/Bunny_Frames/src/keyframe.cpp:515-541 | no frames, frame 0 on screen |
| FrameCycle.Animation.KeyPressed | hw6/Part2/I_Bar/src/keyframe.cpp:233-249 | 'n' with frames advances modulo their number; with no frames, or any other key, nothing changes |
| BunnyFrames.InterpolatedVertex | hw6/Part2/Bunny_Frames/src/keyframe.cpp:314-319 | find_interpolated_vertex: each coordinate on the spline through the same coordinate of the four controls; a NULL_VERTEX control gives (NaN, NaN, NaN); its properties are InterpolatedVertexEnds' |
| BunnyFrames.InterpolatedVertexEnds | hw6/Part2/Bunny_Frames/src/keyframe.cpp:293-319 | between real vertices the result is v1 at u = 0 and v2 at u = 1, and fixed when the four controls agree; a NULL_VERTEX control gives the NaN vertex, since the dense product B·p meets 0·INFINITY |
| BunnyFrames.FindInterpolatedFrame | hw6/Part2/Bunny_Frames/src/keyframe.cpp:323-335 | a frame with the given id, not a keyframe, with k0's faces and one interpolated vertex per vertex of k0 |
| BunnyFrames.VerticesUpToAt | hw6/Part2/Bunny_Frames/src/keyframe.cpp:323-335 | vertex i of the interpolated list is the spline through vertex i of the four controls |
| BunnyFrames.InterpolatedFrameEnds | hw6/Part2/Bunny_Frames/src/keyframe.cpp:293-335 | from index 1 on, the frame at u = 0 has k1's vertices and at u = 1 k2's, and four equal controls give their own vertices and faces; slot 0 of every in-between frame is (NaN, NaN, NaN), not NULL_VERTEX |
| BunnyFrames.Before | hw6/Part2/Bunny_Frames/src/keyframe.cpp:348 | the control before keyframe i is keyframe max(0, i − 1) |
| BunnyFrames.AfterNext | hw6/Part2/Bunny_Frames/src/keyframe.cpp:349 | the control after keyframe i + 1 is keyframe min(size − 1, i + 2) |
| BunnyFrames.GenerateInterpolatedFrames | hw6/Part2/Bunny_Frames/src/keyframe.cpp:338-373 | all_frames gains each keyframe but the last followed by its in-betweens, then the last keyframe; the frame on screen is unchanged |
| BunnyFrames.SegmentsStep | hw6/Part2/Bunny_Frames/src/keyframe.cpp:345-370 | the segments up to i + 1 are those up to i followed by segment i |
| BunnyFrames.AddSegment | hw6/Part2/Bunny_Frames/src/keyframe.cpp:345-370 | appends keyframe i and the frames between it and keyframe i + 1 |
| BunnyFrames.InbetweenIds | hw6/Part2/Bunny_Frames/src/keyframe.cpp:355-368 | the in-betweens carry the ids following keyframe i's |
| BunnyFrames.SegmentNumbered | hw6/Part2/Bunny_Frames/src/keyframe.cpp:355-368 | with increasing ids, keyframe i and its in-betweens are numbered from keyframe i's id up to just below keyframe i + 1's, one frame per id |
| BunnyFrames.SegmentsIds | hw6/Part2/Bunny_Frames/src/keyframe.cpp:338-373 | with increasing ids the frames up to keyframe m are numbered without a gap and keyframe j sits at its own id's place |
| BunnyFrames.IdsIncrease | hw6/Part2/Bunny_Frames/src/keyframe.cpp:530 | ids that increase step by step increase over any distance |
| BunnyFrames.GeneratedIds | hw6/Part2/Bunny_Frames/src/keyframe.cpp:338-373 | the generated frames are numbered from the first keyframe's id to the last's without gap or repeat, each keyframe at its id |
| BunnyFrames.ReadKeyframes | hw6/Part2/Bunny_Frames/src/keyframe.cpp:527-532 | file i becomes keyframe i with id 5·i; the read fails at the first file that cannot be opened |
| BunnyFrames.LoadAnimation | hw6/Part2/Bunny_Frames/src/keyframe.cpp:515-541 | all_frames is cleared, refilled with the generated frames of the five keyframes, and frame 0 is shown |
| BunnyFrames.BunnyAnimation | hw6/Part2/Bunny_Frames/src/keyframe.cpp:515-541 | five keyframes give 21 frames numbered 0 .. 20 with keyframes at 0, 5, 10, 15 and 20 |
| TransformFrames.DefaultFrame | hw6/Part2/include/frame.h:41-46 | id 0, not a keyframe, zero t, s, r and angle, and a quaternion with zero vector part |
| TransformFrames.KeyframeFrame | hw6/Part2/include/frame.h:51-62 | copies t, s, the axis and the angle in degrees; normalises the caller's axis array and builds q from the unit axis and the angle in radians |
| TransformFrames.KeyframeQuaternionIsUnit | hw6/Part2/include/frame.h:51-62 | a keyframe's quaternion has squared norm 1, whatever the length of the axis given |
| TransformFrames.FrameWithQuaternion | hw6/Part2/include/frame.h:64-70 | copies t, s, r and the angle and stores qn unchanged; the arrays are not changed |
| TransformFrames.InterpolatedQuaternion | hw6/Part2/I_Bar/src/keyframe.cpp:292-298 | find_interpolated_quaternion: s, x, y and z each on the spline through the four keyframes' components; InterpolatedQuaternionEnds states that it passes through k1 and k2 |
| TransformFrames.InterpolatedQuaternionEnds | hw6/Part2/I_Bar/src/keyframe.cpp:292-298 | the interpolated quaternion is k1's at u = 0 and k2's at u = 1 |
| TransformFrames.FindInterpolatedTranslation | hw6/Part2/I_Bar/src/keyframe.cpp:278-282 | t holds the spline through the four translations, coordinate by coordinate |
| TransformFrames.FindInterpolatedScaling | hw6/Part2/I_Bar/src/keyframe.cpp:285-289 | s holds the spline through the four scalings, coordinate by coordinate |
| TransformFrames.RotationAxis | hw6/Part2/I_Bar/src/keyframe.cpp:301-314 | (0, 0, 1) below the 10e-6 threshold; otherwise scaling the axis by sqrt(1 − s²) gives the vector part |
| TransformFrames.FindInterpolatedRotation | hw6/Part2/I_Bar/src/keyframe.cpp:301-314 | r holds the axis read back from q |
| TransformFrames.RotationAxisIsUnit | hw6/Part2/I_Bar/src/keyframe.cpp:301-314 | for a unit quaternion the axis read back has length 1 |
| TransformFrames.FindInterpolatedFrame | hw6/Part2/I_Bar/src/keyframe.cpp:316-340 | splined t and s, the normalised splined q, the axis read from q, angle 2·acos(q.s) in degrees, the given id, not a keyframe |
| TransformFrames.InterpolatedFrameAtStart | hw6/Part2/I_Bar/src/keyframe.cpp:316-340 | at u = 0 the frame has k1's translation and scaling, and k1's quaternion when that is a unit one |
| TransformFrames.UnitNormalizes | hw3/src/quarternion.cpp:43-49 | normalising a unit quaternion leaves it unchanged |
| TransformFrames.Previous | hw6/Part2/I_Bar/src/keyframe.cpp:351 | the control before keyframe i wraps to the last keyframe from the first |
| TransformFrames.AfterNext | hw6/Part2/I_Bar/src/keyframe.cpp:352 | the control after keyframe i + 1 wraps past the last keyframe |
| TransformFrames.GenerateInterpolatedFrames | hw6/Part2/I_Bar/src/keyframe.cpp:343-373 | all_frames gains each keyframe but the last with its in-betweens; the last keyframe is not appended; the frame on screen is unchanged |
| TransformFrames.SegmentsStep | hw6/Part2/I_Bar/src/keyframe.cpp:345-372 | the segments up to i + 1 are those up to i followed by segment i |
| TransformFrames.AddSegment | hw6/Part2/I_Bar/src/keyframe.cpp:345-372 | appends keyframe i and the frames between it and keyframe i + 1 |
| TransformFrames.AppendInbetween | hw6/Part2/I_Bar/src/keyframe.cpp:367-371 | appends the frame interpolated at u = j / n with the next id |
| TransformFrames.InbetweenIds | hw6/Part2/I_Bar/src/keyframe.cpp:355-371 | the in-betweens carry the ids following keyframe i's and none is a keyframe |
| TransformFrames.SegmentIds | hw6/Part2/I_Bar/src/keyframe.cpp:345-372 | segment i holds kf[i + 1].id − kf[i].id frames numbered on from kf[i]'s id |
| TransformFrames.IdsIncrease | hw6/Part2/I_Bar/src/keyframe.cpp:355 | ids that increase step by step increase over any distance |
| TransformFrames.SegmentsNumbered | hw6/Part2/I_Bar/src/keyframe.cpp:343-373 | the frames up to keyframe k are numbered from the first id on without a gap |
| TransformFrames.NumberedConcat | hw6/Part2/I_Bar/src/keyframe.cpp:343-373 | frames numbered a .. b − 1 then b .. c − 1 are numbered a .. c − 1 |
| TransformFrames.SegmentsKeyframes | hw6/Part2/I_Bar/src/keyframe.cpp:343-373 | keyframe j < k sits at its own id's place in the frames up to keyframe k |
| TransformFrames.GeneratedIds | hw6/Part2/I_Bar/src/keyframe.cpp:343-373 | frames numbered from the first id to one below the last without gap or repeat, each keyframe but the last at its id, none with the last id |
| TransformFrames.ScriptFromKeyframes | hw6/Part2/I_Bar/src/keyframe.cpp:426-465 | reading keeps earlier keyframes and adds, per rotation line, the keyframe the constructor builds from the current id, t, s, axis and angle |
| TransformFrames.ReadLineInto | hw6/Part2/I_Bar/src/keyframe.cpp:426-465 | one line's tokens update num_frames, the id, t, s or the axis and angle, and a rotation line appends a keyframe |
| TransformFrames.ReadScript | hw6/Part2/I_Bar/src/keyframe.cpp:426-465 | the keyframes and num_frames that reading every line in turn gives |
| TransformFrames.LoadScript | hw6/Part2/I_Bar/src/keyframe.cpp:395-479 | reads, closes the list with a copy of keyframe 0 at num_frames, regenerates all_frames and shows frame 0; an unreadable or keyframe-less script changes nothing |
| TransformFrames.ClosedScriptFrames | hw6/Part2/I_Bar/src/keyframe.cpp:468-479 | frames first id .. num_frames − 1 play once each, keyframes in place, and the cycle returns to keyframe 0 |
| Part2Keyframe.AbsReal | hw6/Part2/src/keyframe.cpp:70 | the result is non-negative and equals x or −x |
| Part2Keyframe.Screen2Ndc | hw6/Part2/src/keyframe.cpp:63-72 | z is never negative, and is 0 for a point outside the unit disc |
| Part2Keyframe.Screen2NdcInverse | hw6/Part2/src/keyframe.cpp:64-65 | the screen point is recovered from the NDC x and y |
| Part2Keyframe.Screen2NdcOnSphere | hw6/Part2/src/keyframe.cpp:63-72 | a point inside the disc lands on the unit sphere |
| Part2Keyframe.Screen2NdcLandmarks | hw6/Part2/src/keyframe.cpp:63-72 | the window centre maps to the top of the sphere (0, 0, 1); the bottom-left and top-right corners to (−1, −1, 0) and (1, 1, 0) |
| Part2Keyframe.ReadKeyframes | hw6/Part2/src/keyframe.cpp:268-330 | an unopenable script gives nothing; otherwise one keyframe per rotation line, its angle converted to radians on reading |
| Part2Keyframe.AngleConvertedTwice | hw6/Part2/src/keyframe.cpp:326-327 | as written, the stored angle is deg2rad(a) and the quaternion turns by deg2rad(deg2rad(a)) |
| Part2Keyframe.AngleConvertedOnce | hw6/Part2/I_Bar/src/keyframe.cpp:457-462 | read as the I_Bar reader does, without its own conversion, the stored angle is a and the quaternion turns by deg2rad(a), the single conversion frame.h:61 makes |
| Part2Keyframe.QuarterTurnConvertedTwice | hw6/Part2/src/keyframe.cpp:326-327 | a 90-degree line turns by π²/360 instead of π/2 |
| Elasticity.TokensAreWords | hw6/Part1/Elasticity/utils.h:36-48 | no token split returns is empty or holds the delimiter |
| Elasticity.ConcatTokens | hw6/Part1/Elasticity/utils.h:36-48 | the tokens put back together are the string with every delimiter removed |
| Elasticity.SplitInto | hw6/Part1/Elasticity/utils.h:36-48 | the vector ends with the string's tokens, its earlier contents kept in front |
| Elasticity.SplitFresh | hw6/Part1/Elasticity/utils.h:50-55 | a fresh vector holding exactly the string's tokens |
| Elasticity.RestArea | hw6/Part1/Elasticity/elastic_demo.cpp:134-135 | a triangle's rest area is never negative |
| Elasticity.RestAreaIsShoelace | hw6/Part1/Elasticity/elastic_demo.cpp:126-135 | the rest area is the shoelace area of the three rest positions |
| Elasticity.ObjLine | hw6/Part1/Elasticity/elastic_demo.cpp:90-138 | a line only appends to the vertex, triangle and rest matrix lists, and keeps a valid mesh valid; None where the program dies |
| Elasticity.ObjFrom | hw6/Part1/Elasticity/elastic_demo.cpp:88-139 | reading lines only appends to the three lists and keeps a valid mesh valid |
| Elasticity.FaceIndexBeforeSlash | hw6/Part1/Elasticity/elastic_demo.cpp:121-123 | a face token's index is the number before its first '/', minus one |
| Elasticity.ParsedVertexAtRest | hw6/Part1/Elasticity/elastic_demo.cpp:96-114 | a "v x y" line appends one vertex at rest at (x, y) with zero velocity and force and mass 1 |
| Elasticity.ParsedFaceZeroBased | hw6/Part1/Elasticity/elastic_demo.cpp:117-138 | an "f" line appends the triangle of 0-based corners with rest area half the absolute determinant, and its rest matrix |
| Elasticity.ObjLineFace | hw6/Part1/Elasticity/elastic_demo.cpp:117-138 | an "f" line whose corners exist appends that triangle and its rest matrix |
| Elasticity.ParseLine | hw6/Part1/Elasticity/elastic_demo.cpp:90-138 | the lists after one line are those ObjLine gives, and false exactly where it gives None |
| Elasticity.ReadLines | hw6/Part1/Elasticity/elastic_demo.cpp:88-139 | the lists and the outcome after the loop are those ObjFrom gives |
| Elasticity.FaceIndexOf | hw6/Part1/Elasticity/elastic_demo.cpp:121-123 | the index stoi(split(token, '/').at(0)) − 1, None for a token that is all slashes |
| Elasticity.PotentialNext | hw6/Part1/Elasticity/elastic_demo.cpp:215 | each triangle adds its energy to pe |
| Elasticity.DistributeBalanced | hw6/Part1/Elasticity/elastic_demo.cpp:207-213 | a triangle's three pushes cancel, leaving the net force unchanged |
| Elasticity.DistributeOnlyForces | hw6/Part1/Elasticity/elastic_demo.cpp:207-213 | adding a triangle's forces changes only forces |
| Elasticity.ResetNoForce | hw6/Part1/Elasticity/elastic_demo.cpp:313-317 | after the reset the net force on the mesh is zero |
| Elasticity.NoNetForce | hw6/Part1/Elasticity/elastic_demo.cpp:313-325 | after the reset and every triangle's forces the net force is zero on both axes |
| Elasticity.Forced | hw6/Part1/Elasticity/elastic_demo.cpp:313-325 | the forced vertices differ from the old ones only in their forces, and the net force is zero |
| Elasticity.SteppedIsEuler | hw6/Part1/Elasticity/elastic_demo.cpp:336-347 | explicit Euler: momentum changes by force × tstep, position by new velocity × tstep; force and rest position kept |
| Elasticity.KineticNonNegative | hw6/Part1/Elasticity/elastic_demo.cpp:349-350 | the kinetic energy summed over the vertices is never negative |
| Elasticity.ClickMatchesView | hw6/Part1/Elasticity/elastic_demo.cpp:68-69 | the window corners and centre map onto the corners and centre of the view box, y pointing up |
| Elasticity.ClickedPointFrom | hw6/Part1/Elasticity/elastic_demo.cpp:375-385 | the first vertex within clickRad on both axes, or −1 when none is |
| Elasticity.DragFollowsCursor | hw6/Part1/Elasticity/elastic_demo.cpp:415-419 | the dragged vertex moves exactly as far as the cursor does in view coordinates |
| Elasticity.DragsCompose | hw6/Part1/Elasticity/elastic_demo.cpp:410-424 | two drags in a row equal one drag over the whole way; dragging back undoes a drag |
| Elasticity.ElasticDemo.constructor | hw6/Part1/Elasticity/elastic_demo.cpp:55-76 | empty lists, zero energies and clock, the float extremes as the range, no drag |
| Elasticity.ElasticDemo.ParseObj | hw6/Part1/Elasticity/elastic_demo.cpp:81-149 | an unopenable file changes nothing; otherwise the lists are those ObjFrom gives, and the result says whether a line stopped the program |
| Elasticity.ElasticDemo.Load | hw6/Part1/Elasticity/elastic_demo.cpp:81-149 | the three lists become the ones given; energies and mouse state are unchanged |
| Elasticity.ElasticDemo.ResetForces | hw6/Part1/Elasticity/elastic_demo.cpp:313-317 | every vertex's force becomes zero; nothing else changes |
| Elasticity.ElasticDemo.UpdateForces | hw6/Part1/Elasticity/elastic_demo.cpp:189-216 | the triangle's pushes are added to its corners and its energy to pe; only forces and pe change |
| Elasticity.ElasticDemo.AccumulateForces | hw6/Part1/Elasticity/elastic_demo.cpp:324-325 | every triangle's forces are added in turn and pe grows by their total energy |
| Elasticity.ElasticDemo.StepVertex | hw6/Part1/Elasticity/elastic_demo.cpp:336-347 | the vertex after one step of the update loop is Stepped(v), the explicit Euler step SteppedIsEuler characterises |
| Elasticity.ElasticDemo.Integrate | hw6/Part1/Elasticity/elastic_demo.cpp:328-351 | every vertex but the dragged one is stepped, and ke grows by the new kinetic energy |
| Elasticity.ElasticDemo.Display | hw6/Part1/Elasticity/elastic_demo.cpp:302-363 | one frame: forces reset and re-accumulated, vertices but the dragged one stepped, zero net force, the dragged vertex unmoved, the range widened, the clock on by tstep |
| Elasticity.ElasticDemo.RecordFrame | hw6/Part1/Elasticity/elastic_demo.cpp:354-358 | this frame's total widens the range, which stays the range of all totals, and the clock moves on by tstep |
| Elasticity.ElasticDemo.GetClickedPoint | hw6/Part1/Elasticity/elastic_demo.cpp:375-385 | −1 exactly when no vertex is within clickRad; otherwise the first vertex that is |
| Elasticity.ElasticDemo.MousePressed | hw6/Part1/Elasticity/elastic_demo.cpp:387-408 | a left press on a vertex starts dragging it from that pixel, elsewhere nothing; a left release ends the drag; other buttons change nothing |
| Elasticity.ElasticDemo.MouseMoved | hw6/Part1/Elasticity/elastic_demo.cpp:410-424 | while dragging only the dragged vertex moves, by the cursor's move, and the cursor is remembered; otherwise nothing changes |
| Elasticity.FrameOnlyForces | hw6/Part1/Elasticity/elastic_demo.cpp:313-325 | resetting and accumulating forces changes only forces |
| Elasticity.IntegratedKeepsRest | hw6/Part1/Elasticity/elastic_demo.cpp:328-351 | stepping keeps rest positions and masses, and leaves the dragged vertex whole |
| Elasticity.FrameValid | hw6/Part1/Elasticity/elastic_demo.cpp:302-363 | a frame keeps the mesh valid, leaves no net force, and does not move a held vertex |
| Elasticity.IntegratedKeepsForces | hw6/Part1/Elasticity/elastic_demo.cpp:328-351 | stepping leaves the net force unchanged |
| EnergyTotals.Record | hw6/Part1/Elasticity/elastic_demo.cpp:354-356 | the new range holds the total and the old range, and each end is the old end or the total |
| EnergyTotals.RecordAllIsRange | hw6/Part1/Elasticity/elastic_demo.cpp:60 | every total seen lies in the range; with finite totals both ends are totals that were seen |
| SpringPendulums.InitialBob | hw6/Part1/Single_Spring_Pendulum/single_spring_pendulum_demo.cpp:362-376 | mass 1, at rest at (x, y), spring constant 20 and rest length 1 |
| SpringPendulums.KineticOf | hw6/Part1/Single_Spring_Pendulum/single_spring_pendulum_demo.cpp:174 | the kinetic energy is never negative |
| SpringPendulums.Moved | hw6/Part1/Single_Spring_Pendulum/single_spring_pendulum_demo.cpp:235-242 | a move keeps mass, spring constant and rest length |
| SpringPendulums.MovedFollowsMomentum | hw6/Part1/Single_Spring_Pendulum/single_spring_pendulum_demo.cpp:235-242 | after a move the momentum over the mass is the new velocity and the position moved by dt times it |
| SpringPendulums.Trailed | hw6/Part1/Single_Spring_Pendulum/single_spring_pendulum_demo.cpp:191-215 | the new point ends the trail, which grows by one unless it already held max_num_points |
| SpringPendulums.Recent | hw6/Part1/Single_Spring_Pendulum/single_spring_pendulum_demo.cpp:82 | the last max_num_points points of the history, or all of them when fewer |
| SpringPendulums.TrailedIsRecent | hw6/Part1/Single_Spring_Pendulum/single_spring_pendulum_demo.cpp:191-215 | a trail that is the recent history stays the recent history after a point is traced |
| SpringPendulums.PushBounded | hw6/Part1/Single_Spring_Pendulum/single_spring_pendulum_demo.cpp:191-215 | the trail after the push is the recent history including the new point |
| SpringPendulums.RecentSameLength | hw6/Part1/Double_Spring_Pendulum/double_spring_pendulums_demo.cpp:170-204 | the recent histories of equally long histories are equally long, so the four trails stay in step |
| SpringPendulums.NormAsWritten | hw6/Part1/Single_Spring_Pendulum/single_spring_pendulum_demo.cpp:205-206 | abs(L / L0) with the `> 1.0` clamp, which NaN passes; NormAsWrittenRange, NormZeroOverZero and NormAgreesWithSource state its meaning |
| SpringPendulums.AbsRatio | hw6/Part1/Single_Spring_Pendulum/single_spring_pendulum_demo.cpp:205 | abs(l / l0) is the number's absolute value for l0 ≠ 0, +inf for a non-zero over zero, and NaN for 0 / 0 |
| SpringPendulums.NormAsWrittenRange | hw6/Part1/Single_Spring_Pendulum/single_spring_pendulum_demo.cpp:205-206 | as written, the colour value is a number in [0, 1] exactly when L and L0 are not both zero |
| SpringPendulums.NormZeroOverZero | hw6/Part1/Single_Spring_Pendulum/single_spring_pendulum_demo.cpp:205-206 | L = L0 = 0 gives NaN |
| SpringPendulums.Norm | hw6/Part1/Single_Spring_Pendulum/single_spring_pendulum_demo.cpp:205-206 | the intended clamp always lies in [0, 1] |
| SpringPendulums.NormAgreesWithSource | hw6/Part1/Single_Spring_Pendulum/single_spring_pendulum_demo.cpp:205-206 | wherever the written clamp gives a number the intended one gives the same; it is 1 exactly when abs(L / L0) ≥ 1 |
| SpringPendulums.CorrectedColorsInRange | hw6/Part1/Double_Spring_Pendulum/double_spring_pendulums_demo.cpp:187-198 | with the intended clamp every colour channel lies in [0, 1] |
| SpringPendulums.OneMinus | hw6/Part1/Single_Spring_Pendulum/single_spring_pendulum_demo.cpp:211 | 1 − n on numbers, and NaN stays NaN |
| SpringPendulums.FirstColor | hw6/Part1/Double_Spring_Pendulum/double_spring_pendulums_demo.cpp:190-193 | color1: (n, n, 1 − n); ColorsFromNorm and CorrectedColorsInRange state its range |
| SpringPendulums.SecondColor | hw6/Part1/Double_Spring_Pendulum/double_spring_pendulums_demo.cpp:195-198 | color2: (1 − n, n, n); ColorsFromNorm proves it is color1 with red and blue swapped |
| SpringPendulums.ColorsFromNorm | hw6/Part1/Double_Spring_Pendulum/double_spring_pendulums_demo.cpp:187-198 | color1 has r = g and b = 1 − r, color2 swaps red and blue; all in [0, 1] unless L = L0 = 0, when every channel is NaN |
| SinglePendulum.Stepped | hw6/Part1/Single_Spring_Pendulum/single_spring_pendulum_demo.cpp:218-242 | a step keeps mass, spring constant and rest length |
| SinglePendulum.SpringMomentum | hw6/Part1/Single_Spring_Pendulum/single_spring_pendulum_demo.cpp:221-231 | the spring alone changes the momentum by dt times Hooke's force |
| SinglePendulum.SteppedIsNewton | hw6/Part1/Single_Spring_Pendulum/single_spring_pendulum_demo.cpp:218-242 | each momentum moves by dt times the spring and gravity force on its axis, and the position by dt times the new velocity |
| SinglePendulum.RestStartHasZeroLagrangian | hw6/Part1/Single_Spring_Pendulum/single_spring_pendulum_demo.cpp:358-380 | started at (1, 0) the Lagrangian is 0, so the written colour of the first trail point is NaN |
| SinglePendulum.SpringPendulumDemo.constructor | hw6/Part1/Single_Spring_Pendulum/single_spring_pendulum_demo.cpp:358-380 | the bob at rest at (x, y), empty trails, and lagrangian_0 = ke − pe with that total recorded |
| SinglePendulum.SpringPendulumDemo.ComputeLagrangian | hw6/Part1/Single_Spring_Pendulum/single_spring_pendulum_demo.cpp:172-184 | ke and pe of the bob, the range widened by their sum, and the result ke − pe |
| SinglePendulum.SpringPendulumDemo.RecordTotal | hw6/Part1/Single_Spring_Pendulum/single_spring_pendulum_demo.cpp:179-181 | the total widens the range; nothing else changes |
| SinglePendulum.SpringPendulumDemo.LagrangianNorm | hw6/Part1/Single_Spring_Pendulum/single_spring_pendulum_demo.cpp:205-206 | the colour value is NormAsWritten(L, L0): abs(L / L0) clamped at 1, NaN when both are zero |
| SinglePendulum.SpringPendulumDemo.UpdatePath | hw6/Part1/Single_Spring_Pendulum/single_spring_pendulum_demo.cpp:187-216 | the bob's position and the written colour of L / L0 are traced, the oldest dropped from a full trail |
| SinglePendulum.SpringPendulumDemo.Trace | hw6/Part1/Single_Spring_Pendulum/single_spring_pendulum_demo.cpp:191-215 | the trails stay the recent history of every point and colour traced |
| SinglePendulum.SpringPendulumDemo.UpdatePendulum | hw6/Part1/Single_Spring_Pendulum/single_spring_pendulum_demo.cpp:218-246 | the bob takes one step and the clock moves on by dt; nothing else changes |
| SinglePendulum.SpringPendulumDemo.Update | hw6/Part1/Single_Spring_Pendulum/single_spring_pendulum_demo.cpp:249-255 | the old position is traced, then the bob steps; the trail stays at most max_num_points long |
| DoublePendulum.KineticOfBoth | hw6/Part1/Double_Spring_Pendulum/double_spring_pendulums_demo.cpp:152-153 | the kinetic energy of both bobs is never negative |
| DoublePendulum.PulledBackMomentum | hw6/Part1/Double_Spring_Pendulum/double_spring_pendulums_demo.cpp:222-229 | the first bob's new momentum is p − dt·f |
| DoublePendulum.PulledOnMomentum | hw6/Part1/Double_Spring_Pendulum/double_spring_pendulums_demo.cpp:232-239 | the second bob's new momentum is p + dt·f |
| DoublePendulum.Stepped | hw6/Part1/Double_Spring_Pendulum/double_spring_pendulums_demo.cpp:207-255 | a step keeps both bobs' masses, spring constants and rest lengths |
| DoublePendulum.MomentumExchange | hw6/Part1/Double_Spring_Pendulum/double_spring_pendulums_demo.cpp:216-255 | the second spring's forces cancel: the total momentum changes only by dt times the first spring's force and gravity on both masses |
| DoublePendulum.DoublePendulumDemo.constructor | hw6/Part1/Double_Spring_Pendulum/double_spring_pendulums_demo.cpp:362-389 | both bobs at rest where the arguments put them, empty trails, lagrangian_0 = ke − pe with that total recorded |
| DoublePendulum.DoublePendulumDemo.ComputeLagrangian | hw6/Part1/Double_Spring_Pendulum/double_spring_pendulums_demo.cpp:150-166 | ke and pe of both bobs, the range widened by their sum, and the result ke − pe |
| DoublePendulum.DoublePendulumDemo.RecordTotal | hw6/Part1/Double_Spring_Pendulum/double_spring_pendulums_demo.cpp:161-163 | the total widens the range; nothing else changes |
| DoublePendulum.DoublePendulumDemo.UpdatePath | hw6/Part1/Double_Spring_Pendulum/double_spring_pendulums_demo.cpp:168-205 | both positions traced, the first in the written colour of L / L0 and the second in the mirrored colour |
| DoublePendulum.DoublePendulumDemo.Trace | hw6/Part1/Double_Spring_Pendulum/double_spring_pendulums_demo.cpp:170-204 | when the first trail is full the oldest entry of all four goes, then the new ones are appended; the trails stay the recent histories |
| DoublePendulum.DoublePendulumDemo.TraceFirst | hw6/Part1/Double_Spring_Pendulum/double_spring_pendulums_demo.cpp:170-201 | the first trail and its colours take the new entry, dropping the oldest when full |
| DoublePendulum.DoublePendulumDemo.TraceSecond | hw6/Part1/Double_Spring_Pendulum/double_spring_pendulums_demo.cpp:170-204 | the second trail and its colours take the new entry, dropping the oldest when the first trail was full |
| DoublePendulum.DoublePendulumDemo.UpdatePendulums | hw6/Part1/Double_Spring_Pendulum/double_spring_pendulums_demo.cpp:207-259 | both bobs take one step and the clock moves on by dt; nothing else changes |
| DoublePendulum.DoublePendulumDemo.Update | hw6/Part1/Double_Spring_Pendulum/double_spring_pendulums_demo.cpp:261-267 | both old positions traced, then both bobs step; the four trails stay equally long and at most max_num_points |
| SceneBlocks.LightLine | hw5/src/parser.cpp:100-124 | a line gives a light exactly when it has at least ten tokens and starts with "light"; the light's position has w = 1 |
| SceneBlocks.LightsBlockLost | hw5/src/parser.cpp:94-125 | the lights block fails exactly when one of its lines is not a light line |
| SceneBlocks.LightsBlockRead | hw5/src/parser.cpp:94-126 | a lights block read in full gives one light per line, in order, and reading resumes after the block's empty line |
| SceneBlocks.CreateLights | hw5/src/parser.cpp:88-127 | the lights, and where reading stopped, are those of the block; an error exactly where the block has a bad line |
| SceneBlocks.FormattedLightParses | hw5/src/parser.cpp:100-120 | a light written out as "light x y z , r g b , k" reads back as that light |
| SceneBlocks.FormattedLightsParse | hw5/src/parser.cpp:88-127 | a block of written-out lights ended by an empty line reads back as those lights |
| SceneBlocks.MaterialLine | hw5/src/parser.cpp:139-168 | a line is accepted exactly for ambient, diffuse and specular with three numbers or shininess with one; each sets only its own field and only shininess ends the block |
| SceneBlocks.CreateMaterial | hw5/src/parser.cpp:129-173 | the material, and where reading stopped, are those of the block read from unset settings; an error exactly where the block has a bad line |
| SceneBlocks.FormattedMaterialParses | hw5/src/parser.cpp:129-173 | a material written out as its four lines reads back as that material, whatever was set before |
| SceneBlocks.ViewLine | hw5/src/parser.cpp:229-265 | a line is accepted exactly for position, orientation and the six frustum keywords with enough numbers; position sets only the camera position, and a frustum line only the frustum |
| SceneBlocks.ViewFrom | hw5/src/parser.cpp:227-266 | a camera block read in full stops after its empty line |
| SceneBlocks.ReadView | hw5/src/parser.cpp:227-266 | the camera and frustum, and where reading stopped, are those of the block read from unset settings |
| SceneBlocks.ReadViewLine | hw5/src/parser.cpp:229-265 | one line of the camera block applied to the settings read so far |
| SceneBlocks.CreateScene | hw5/src/parser.cpp:214-276 | the camera, frustum and lights of the two blocks with the given resolution; an error exactly where either block has a bad line |
| SceneBlocks.FormattedViewParses | hw5/src/parser.cpp:227-266 | a camera block written out as its eight lines and an empty line reads back as that camera and frustum |
| SceneBlocks.FormattedSceneParses | hw5/src/parser.cpp:214-276 | a written-out camera block followed by a written-out lights block reads back as that scene |
| Mesh.ToColVector | hw1/src/object.cpp:8-12 | the column holds the vertex's x, y, z and w |
| Mesh.ToVertex | hw1/src/object.cpp:15-17 | the vertex holds the column's four entries |
| Mesh.ColVectorRoundTrip | hw1/src/object.cpp:8-17 | the two conversions invert each other in both directions |
| LinAlg.Normalized | hw7/assignment/src/transform.cpp:60 | v divided by its length for a positive length, so scaling back by the length gives v |
| LinAlg.Translation | hw1/src/transform.cpp:39-46 | moves every point by d and leaves directions alone |
| LinAlg.Scaling | hw1/src/transform.cpp:49-56 | stretches each coordinate by its factor |
| LinAlg.Rotation | hw1/src/transform.cpp:10-36 | an affine matrix: last row (0, 0, 0, 1) and no translation part |
| LinAlg.RotationByZero | hw1/src/transform.cpp:10-30 | a zero angle gives the identity for any axis |
| LinAlg.RotationFixesAxis | hw1/src/transform.cpp:10-30 | a rotation about a unit axis leaves every point of the axis fixed |
| LinAlg.IdentityIsUnit | hw1/src/transform.cpp:76 | the identity is a two-sided unit of the product and fixes every vector |
| LinAlg.TrivialTransformsAreIdentity | hw1/src/transform.cpp:39-56 | a zero translation and a unit scaling are the identity |
| LinAlg.ApplyMul | hw1/src/transform.cpp:79-81 | applying A·B applies B first, then A |
| LinAlg.ProductLastFirstAppliesInOrder | hw1/src/transform.cpp:74-84 | compute_product's matrix applies the first transform of the list first |
| LinAlg.ProductFirstLastIsReversed | hw7/assignment/src/assignment.cpp:218-226 | the first-to-last product is the last-to-first product of the reversed list |
| LinAlg.ProductFirstLastAppliesReversed | hw7/assignment/src/assignment.cpp:218-226 | the first-to-last product applies the last matrix of the list first |
| LinAlg.MultiplyLastFirst | hw1/src/transform.cpp:74-84 | the loop's product is ms[k-1]·…·ms[0] |
| LinAlg.MultiplyFirstLast | hw7/assignment/src/assignment.cpp:218-226 | the loop's product is ms[0]·…·ms[k-1] |
| LinAlg.ApplyEachLastFirst | hw7/assignment/src/assignment.cpp:37-44 | multiplying v by each matrix from last to first gives the first-to-last product applied to v |
| Projection.PerspectiveMatrix | hw1/src/scene.cpp:7-26 | last row (0, 0, −1, 0): the w of every transformed point is minus its camera-space z |
| Projection.NearAndFarPlanes | hw1/src/scene.cpp:7-26 | after the division by w the near plane lands on depth −1 and the far plane on +1 |
| Projection.DepthAt | hw1/src/scene.cpp:18-24 | the transformed depth and w of a point at camera-space depth −d |
| Projection.DepthRow | hw1/src/scene.cpp:18-24 | the third row sends depth −n to −n and depth −f to f |
| Viewing.ComputeCameraMatrix | hw1/src/scene.cpp:35-40 | a new transformation holding the rotation about the orientation axis, then the translation to the position |
| Viewing.WorldToCameraMatrix | hw2/src/scene.cpp:120 | the inverse of the camera product |
| Viewing.CameraSitsAtPosition | hw1/src/scene.cpp:35-40 | the camera product puts the camera-space origin at the position, and a point of a unit orientation axis at that point moved by the position |
| Viewing.InverseCameraCentresPosition | hw2/src/scene.cpp:85-86 | when the inverse truly inverts, the camera position maps to the camera-space origin |

## Left out

Numerics and libraries:

- Transcendental functions: `sqrt`, `pow`, `sin`, `cos`, `acos`, `log` and Eigen's `inverse()` are uninterpreted fields of `LinAlg.Math`. Their values are not modelled. A proof that needs a law of one of them, for instance `SqrtLaw` or `slopeZeroNegative` for the sign of a zero slope, takes it as a `requires`.
- Floating point: `float` and `double` are exact `real`s. Rounding, the differing widths of `float` and `double`, and overflow are not modelled. IEEE infinities and NaN appear only through `Floats.Float`, at the places listed in the opening section.
- Eigen's `SparseLU` solve in implicit fairing is a parameter of `ImplicitFairing.Solve`, so the model states only what is written back from the solved vectors.
- The force and energy computation of `updateforces` (an Eigen inverse and `log`) is not modelled. `Elasticity.ElasticDemo.UpdateForces` takes each triangle's contribution as an input `Contribution` and models how it is distributed over the three corners.
- The pendulum integrators are modelled over reals (`SinglePendulum.Stepped`, `DoublePendulum.Stepped`). Their float rounding is not.

Programs, I/O and UI:

- OpenGL drawing, the GLUT callbacks and the window set-up are left out. So are the 'q' exit, `fill_buffers`, and the renderers and cameras of hw3, hw4, hw5 and hw7.
- Printing is modelled as the sequence of printed values or lines, not as the characters written to `cout`.
- Opening a file is modelled as a map from names to contents. An unopenable file is a missing key.
- `stod`/`stoi` and `strtod`/`atoi` are the parameters `ObjWords.Parsers`. Their exceptions on malformed numbers are not modelled.
- Indexing past the last token of a line is undefined behaviour in the source. The model reports a line too short for its type as an error, as it does a line of unknown type. A `>>` that finds the stream exhausted leaves its variable as it was, as `std::string` extraction does.
- Uninitialised C++ locals are modelled as 0.
- hw2's `create_scene` calls a three-argument `Scene` constructor that hw2's scene.h does not declare. The model passes xres and yres as hw5 does.
- hw2/src/object.cpp uses field names that differ from hw2/include/object.h. The model follows the function bodies.
- The I_Bar reader builds keyframes with a `Frame` class from an I_Bar header. That header is not part of this model. `TransformFrames` uses the Part2 `Frame` of hw6/Part2/include/frame.h for it.
- The three copies of the quaternion code (hw3, hw4 and hw6 Bunny_Frames) are identical in the operations modelled, except that the Bunny_Frames `quar2rot` ends with an orthogonality assert (see `Quaternions.Quar2Rot` below). They share the one module `Quaternions`, whose rows cite the hw3 copy.

Rotation matrices whose orthogonality assert fails. `create_rotation_matrix` (hw1/src/transform.cpp:34, hw0/Part2/transform.cpp:37, hw0/include/transform.h:47) and the Bunny_Frames `quar2rot` (quaternion.cpp:102) end with `assert((r * r.transpose()).isApprox(Identity, 10e-7))`. A rotation about a non-unit axis, such as the line `r 0 0 2 1.0`, or a non-unit quaternion fails it, and the program aborts. The readers pass the file's axis through unnormalised. `sin` and `cos` are uninterpreted, so the model cannot decide the approximate test. It builds the matrix and goes on, and the abort is not modelled:

- LinAlg.Rotation: returns the axis-angle matrix for every axis; the source aborts when it is not orthogonal.
- Hw0Transform.Transformation.AddRotation: appends the matrix; the source aborts in `create_rotation_matrix` for a non-unit axis.
- Hw1Transform.Transformation.AddRotation: appends the matrix; the source aborts at hw1/src/transform.cpp:34 for a non-unit axis.
- Hw0ParseTransform.CreateTransformationMatrix: returns a product; the source aborts on a rotation record with a non-unit axis.
- Hw0ParseTransform.AddRecords: appends the rotation's matrix; the source aborts for a non-unit axis.
- Hw0Part2Transform.CreateTransformationMatrix: returns a product; the source aborts at hw0/Part2/transform.cpp:37 for a non-unit axis.
- Hw0Part2Transform.ReadTransformations: returns the rotation's matrix; the source aborts for a non-unit axis.
- TransformLines.SpecMatrices: gives every rotation record its matrix; the source aborts for a non-unit axis.
- Hw0Part3.CreateTransformation: returns Some; the source aborts on a rotation line with a non-unit axis.
- Hw0Part3.AddLine: appends the rotation's matrix; the source aborts for a non-unit axis.
- Hw0Part3.BuildScene: builds the scene; the source aborts at a rotation line with a non-unit axis.
- Hw1Parser.CreateTransformation: returns Some; the source aborts on a rotation line with a non-unit axis.
- Hw1Parser.AddLine: appends the rotation's matrix; the source aborts for a non-unit axis.
- Hw1Scene.Scene.PlaceLabeledObject: places the object; the source aborts when its block has a rotation with a non-unit axis.
- Viewing.ComputeCameraMatrix: builds the camera product; the source aborts for a non-unit orientation axis.
- Quaternions.Quar2Rot: returns the matrix for every quaternion; the Bunny_Frames copy aborts when the quaternion is not a unit one.

Zero superquadric exponents. hw7 reads exp0 and exp1 as any float (hw7/assignment/src/parsing.h:301-303) and evaluates `1.0 / e`, `e / n` and `1.0 / n` unchecked (assignment.cpp:20, 147-151). For a zero exponent IEEE gives an infinity, and `pow` of it a number, an infinity or NaN. Reals have no infinity and `pow` is uninterpreted, so these members require non-zero exponents, and the lemmas about them assume the same:

- RtIntersect.InsideOutside: requires e ≠ 0 and n ≠ 0; the source divides by them.
- RtIntersect.Grad: requires e ≠ 0 and n ≠ 0; the source divides by them.
- RtIntersect.IOTest: requires every superquadric of the tree to have non-zero exponents (`ExpsNonzero`).
- RtIntersect.NewtonStep: requires e ≠ 0 and n ≠ 0 (besides the IEEE points below).
- RtIntersect.NewtonIterativeSolver: requires e ≠ 0 and n ≠ 0.
- RtIntersect.SurfaceRay: requires non-zero exponents (besides the vectors below).
- RtIntersect.ClosestIntersection: requires non-zero exponents throughout the tree (`ExpsNonzero`).
- RtIntersect.ClosestChild: requires non-zero exponents throughout the assembly (`ExpsNonzero`).
- RtObject.GetNormal: requires exp0 ≠ 0 and exp1 ≠ 0.
- RtObject.NormalGradient: requires exp0 ≠ 0 and exp1 ≠ 0.
- RtScene.RootHits: requires every root to have non-zero exponents (`RootsWellFormed`).
- RtScene.Scene.ClosestIntersection: requires every root to have non-zero exponents (`RootsWellFormed`), besides the narrowing below.

Other members whose contract is weaker than the source, or whose requires exclude inputs the source accepts:

- Quaternions.Normalize: modelled as a function returning the quaternion that the in-place `normalize` leaves, not as an update in place. It requires a non-zero norm. For a zero quaternion the source divides 0 by 0 and stores NaN.
- Rasterization.RasterColoredTriangle: visits the bounding box clipped to the screen. As written the source visits the whole bounding box, which can reach column xres and row yres, past the buffers. See Findings; `Rasterization.CornerCellPastRowEnd` models the written bound.
- Hw2Parser.PrintedFaceReads: the face round trip is stated only for single-digit indices, because the reader as written reads one digit per index.
- RtIntersect.SurfaceRay: when the Newton solver returns −INFINITY or NaN, the ray is built from zero vectors. In the source, `ray_body.At(t)` and `GetNormal` are computed from that t and hold NaN and infinities. (At +INFINITY both the source and the model return the miss pair before any surface ray is built.)
- RtIntersect.NewtonStep: the NaN or infinity of a step rests on IEEE `pow` and division. The sign of a zero slope is the parameter `slopeZeroNegative`, because real numbers have no signed zero.
- RtScene.Scene.ClosestIntersection: the source returns `std::pair<float, Intersection>`, so each double distance is narrowed to float before `<` (hw7 scene.cpp:113-121). Distances that round to the same float tie, and the first wins. The model compares exact reals, so its "not farther than every root" ensures is stated over the unrounded distances.
- RtIntersect.Sign: `sign` takes a `float` (assignment.cpp:87). Narrowing the double argument first is not modelled.
- RtObject.At: `Ray::At` takes a `float` time (object.cpp:219). Narrowing the double distance is not modelled.
- Bresenham.GeneralizedBresenham: the dispatch tests the `int` product dx·dy (generalized_bresenham.cpp:135), which can overflow for far-apart endpoints. The model uses unbounded integers.
- BunnyFrames.StepsBetween: the loop `for (float u = step; u < 1; u += step)` is modelled as exactly n − 1 in-betweens at u = j/n. Float accumulation can make the written loop run one step more or fewer. With decreasing frame ids the step is negative and the loop never ends. `BunnyFrames.Keyframes` excludes decreasing ids, so that case is not modelled.
- BunnyFrames.Keyframes, BunnyFrames.LoadAnimation: require keyframes with non-decreasing ids and equal vertex counts. The source accepts any script.
- TransformFrames.Keyframes, TransformFrames.GenerateInterpolatedFrames, TransformFrames.AddSegment, TransformFrames.AppendInbetween: require non-decreasing ids and a non-zero spline quaternion before normalisation. The source normalises a zero quaternion into NaN.
- TransformFrames.KeyframeFrame, TransformFrames.ReadLineInto, TransformFrames.ReadScript, TransformFrames.LoadScript: require a non-zero rotation axis on every rotation line (`AxisReadable`, `AxesReadable`). The source normalises a zero axis into NaN.
- Part2Keyframe.Screen2Ndc: requires non-zero xres and yres. The source divides by them.
- Hw2Object.ToCartesian, Hw2Object.TransformVertex, Hw2Object.Transformable, Hw2Object.GetTransformedVerticesBy, Hw2Object.GetTransformedVertices: require w ≠ 0. The source divides by w, and `is_contained` (hw2 object.cpp:36-41) then rejects the infinite or NaN coordinates, so such a vertex is never drawn.
- Hw2Scene.ToNdc, Hw2Scene.NdcIsCameraThenPerspective, Hw2Scene.TransformTwice, Hw2Scene.DivideThenApply: require w ≠ 0, for the same reason.
- Hw2Scene.Scene.ApplyGeometricTransforms, Hw2Scene.Scene.ApplyCameraTransforms, Hw2Scene.Scene.ApplyPerspectiveTransform: require every transformed vertex to have w ≠ 0, for the same reason.
- RtTransform.Rotate.constructor: requires a non-zero axis. The source normalises a zero axis into NaN.
- RtObject.MutableRay.Normalize: requires a non-zero direction. The source divides by a zero length.
- VectorHelpers.DivideByNorm, VectorHelpers.DivideByNormIsNormalized, VectorHelpers.NormalizeArray: require a non-zero norm. The source divides by it.
- Halfedge.HalfedgeMesh.ComputeVertexNormal: requires a non-zero summed normal. The source divides 0 by 0 there and stores NaN.
- ImplicitFairing.BuildRow, ImplicitFairing.BuildFOperator, ImplicitFairing.Solve: require every cross product in a cotangent to be non-zero (`Cot`). The source divides by its length.
- ImplicitFairing.Cot, ImplicitFairing.CotanSum: require the cross product to be non-zero. The source divides by its length and gets an infinity or NaN for a degenerate triangle.
- Hw5Object.Object.GetVertex, Hw5Object.Object.GetVertexNormal: require an index inside the buffer. The source indexes the vector without a check, which is undefined behaviour outside it.
- Elasticity.ElasticDemo.Integrate: requires non-zero masses. The source sets every mass to 1, so this only rules out states the program never reaches.
- SinglePendulum.SpringPendulumDemo.UpdatePendulum, SinglePendulum.SpringPendulumDemo.Update: require a non-zero spring length. The source divides by it.
- DoublePendulum.DoublePendulumDemo.UpdatePendulums, DoublePendulum.DoublePendulumDemo.Update: require non-zero spring lengths, for the same reason.
- SpringPendulums.KineticOf, DoublePendulum.KineticOfBoth: require positive masses, which the demos fix at 1.
- SinglePendulum.SpringPendulumDemo.Trace: the source drops the oldest trail entry before it computes the Lagrangian; the model drops it afterwards. `compute_lagrangian` touches neither trail, so the resulting state is the same.

## Findings

| source | as written | input that shows it | evidently intended | confidence | as-written member | corrected member |
|---|---|---|---|---|---|---|
| hw0/Part3/transform.cpp:159-162 | `compute_product` empties the transformation list, and it is called once per vertex, so only the first vertex is transformed | an object with two vertices and one translation: the second vertex is printed unmoved | compute the product once and apply it to every vertex | not executed | Hw0Part3.PrintVertices, Hw0Part3.SecondVertexNotMoved | Hw0Part3.PrintVerticesFixed, Hw0Part3.IntendedSecondVertex |
| hw0/include/transform.h:90-92 | `add_scaling` pushes a translation matrix | a single scaling by v moves every point p to p + v | push the scaling matrix diag(v, 1), as hw0/Part2/transform.cpp does | not executed | Hw0Transform.ScalingListTranslates, Hw0Transform.PushedScalingTranslates | TransformLines.SpecMatrices, Hw0Transform.IntendedScalingScales |
| hw2/src/generalized_bresenham.cpp:157-190 | the endpoint swaps test strict inequalities, so a segment with dx = 0 and dy < 0, or dx < 0 and dy = 0, draws nothing | a wireframe edge from screen (5, 5) to (5, 2) | draw the same pixels whichever way round the endpoints are given | not executed | Bresenham.SegmentDependsOnDirection, Hw2Object.UpwardEdgeLost | Bresenham.FixedSegment, Bresenham.FixedBresenham, Bresenham.FixedSegmentSymmetric, Hw2Object.CorrectedEdgeSymmetric |
| hw2/src/parser.cpp:44-52 | a face token's vertex index is its first character and its normal index its last, so only single digits are read | `f 12//12 3//3 4//4` reads vertices (1, 3, 4) and normals (2, 3, 4) | read whole decimal indices, as hw5 does with `atoi` | not executed | Hw2Parser.SingleDigitMisreadsTwelve | Hw2Parser.FaceToken, Hw2Parser.FaceTokenRoundTrip |
| hw2/src/rasterization.cpp:83-111 | the bounding box is not clipped, and floor((x + 1)·xres/2) is xres at x = 1, so a cell one past the end of a row is read and written | the triangle with NDC corners (1, 1), (−1, 1), (1, −1) offers a fragment to cell (xres, 0) | visit only cells 0 ≤ x < xres and 0 ≤ y < yres | not executed | Rasterization.CornerCellPastRowEnd | Rasterization.RasterColoredTriangle |
| hw6/Part1/Single_Spring_Pendulum/single_spring_pendulum_demo.cpp:205-206 | `abs(L / L0)` is clamped by `> 1.0`, a test NaN fails, so 0/0 passes through as the colour value | start at rest at x = 1, y = 0: L0 = 0 and the first traced L = 0, so the first colour is (NaN, NaN, NaN) | a colour value in [0, 1] in every case | not executed | SpringPendulums.NormAsWritten, SpringPendulums.NormZeroOverZero | SpringPendulums.Norm, SpringPendulums.CorrectedColorsInRange |
| hw6/Part2/src/keyframe.cpp:326-327 | the script reader converts the angle to radians, and the `Frame` constructor (hw6/Part2/include/frame.h:61) converts it again | a rotation line with angle 90 turns by π²/360 instead of π/2 | convert once, as the I_Bar reader does | not executed | Part2Keyframe.AngleConvertedTwice, Part2Keyframe.QuarterTurnConvertedTwice | Part2Keyframe.AngleConvertedOnce |
| hw7/assignment/src/assignment.cpp:110-111 | both candidates use the discriminant `delta` where the quadratic formula, and its citardauq form, need `sqrt(delta)`, so the guess is not where the ray meets the bounding sphere | a unit ray from the centre of the sphere: a = 1, b = 0, c = -3, delta = 12, and the guess is 6, a point at squared distance 36 while the sphere's squared radius is 3 | the nearer positive root of a·t² + b·t + c, a point on the bounding sphere | not executed | RtIntersect.InitialGuess, RtIntersect.InitialGuessOffSphere | RtIntersect.InitialGuessFixed, RtIntersect.InitialGuessFixedOnSphere |
