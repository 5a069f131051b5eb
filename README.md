# A verified model of a small CPU ray tracer

This project models the tracing core of QwePek/CUDA_OpenGL_Raytracer in Dafny. It covers one picture:
- a scene of spheres held by a `HittableList`;
- a camera that shoots jittered primary rays through a pixel grid;
- shading of each ray by its nearest hit (normal colouring) or the sky gradient;
- quantisation of the averaged colour into an RGBA8 buffer, filled in row-major order.

The stand-alone loop in `main` (Source.cpp) is modelled next to the `Camera` class. It has no jitter and its own `convertColor`. The material `scatter` functions are also modelled even though nothing modelled calls them: `Lambertian`, `Metal` and `Dielectric` with Schlick's reflectance, plus the base `Material` that absorbs.

Scalars are Dafny `real`s. The infinite bounds of `Interval` use the extended reals `NegInf | Fin(r) | PosInf`.

Helpers whose bodies lie outside the modelled files are fields of a `Primitives` record passed in as a parameter: `sqrt`, `glm::normalize`, and `Utils::Vector::reflect`, `refract` and `nearZero`. A lemma that needs one assumes its law as a precondition: `SqrtLaw` for `sqrt`, `NormalizeLaw` for `normalize`.

Random draws are parameters too:
- `Draws`: the draws of one scatter call;
- `uniform(i, j, s)`: the two draws of sample `s` of pixel `(i, j)`.

Objects whose fields the source updates in place are classes:
- `hitData` is `Hittable.HitData`, with `Value()` giving its contents as the datatype `HitRecord`;
- `HittableList` is `HittableLists.HittableList`, over an `array` of spheres;
- `Camera` is `Cameras.Camera`.

`Sphere::hit`, `HittableList::hit`, `Camera::render` and the window loop of `main` are methods. Each is proved equal to a specification function:
- `Spheres.HitOf`: the record a sphere reports, or `None`;
- `HittableLists.ListHit`: the fold over the children that narrows the far bound;
- `Cameras.Image`: the row-major image of averaged samples;
- `SourceMain.WindowPixel`.

Lemmas then prove what the source promises about those functions:
- a list hit is the first nearest hit among the children;
- the normal of a hit on a sphere of positive radius has unit length;
- every shaded colour lies in the unit cube;
- entry `j * w + i` of the buffer is pixel `(i, j)`.

`Camera.h` declares a recursion depth that `Camera.cpp` never uses. The model therefore has one bounce, no gamma step, and a camera fixed at the origin looking down -z, as the code does.

Where the files come from different snapshots, the model follows the definition as written:
- `Camera.cpp` defines a 3-argument constructor and a depth-less `rayColor`; the model uses these, not the declarations in `Camera.h`.
- `HittableList.h` is the CUDA version: an array `objects` and a count `objectsSize`.

## Model

| member | source | states |
|---|---|---|
| Intervals.Interval.Contains | src/Utils/Interval.h:12-14 | closed membership min <= x <= max over the extended reals; SurroundsImpliesContains and Endpoints relate it to Surrounds |
| Intervals.Interval.Surrounds | src/Utils/Interval.h:16-18 | strict membership min < x < max; Endpoints proves it false at both bounds |
| Intervals.Interval.Size | src/Utils/Interval.h:8-10 | `max - min`; it is a NaN (None) exactly when both bounds are the same infinity; for finite bounds it is non-negative iff min <= max |
| Intervals.Interval.Clamp | src/Utils/Interval.h:20-26 | for min <= max the result lies in the interval; the result is x exactly when x is contained; finite bounds give a finite result |
| Intervals.SurroundsImpliesContains | src/Utils/Interval.h:12-18 | strict membership implies closed membership |
| Intervals.Endpoints | src/Utils/Interval.h:12-18 | surrounds is false at both endpoints; contains is true at both when min <= max |
| Intervals.ClampIdempotent | src/Utils/Interval.h:20-26 | clamping twice equals clamping once when min <= max |
| Intervals.ClampMonotone | src/Utils/Interval.h:20-26 | x <= y implies clamp(x) <= clamp(y) when min <= max |
| Intervals.ClampNotIdempotentOnInverted | src/Utils/Interval.h:20-26 | on the inverted interval [5, 3], clamp(clamp(4)) differs from clamp(4), so min <= max is needed |
| Intervals.EmptyHoldsNothing | src/Utils/Interval.cpp:8 | `empty` contains and surrounds no value; its size is -infinity |
| Intervals.UniverseHoldsEverything | src/Utils/Interval.cpp:9 | `universe` contains every value, surrounds every finite one, clamps as the identity, and has size +infinity |
| Intervals.DefaultInterval | src/Utils/Interval.cpp:4-5 | the interval (+infinity, -infinity); DefaultIsEmpty proves it equal to `empty` |
| Intervals.DefaultIsEmpty | src/Utils/Interval.cpp:4-5 | the default constructor gives the same interval as `empty` |
| ExtReals.Minus | src/Utils/Interval.h:8-10 | subtraction of extended reals: NaN exactly for inf - inf of equal sign, and ordinary subtraction on finite values |
| Utils.DegToRad | src/Utils/Utils.h:17-19 | deg * pi / 180; the four lemmas below prove it zero at 0, pi at 180, additive and strictly increasing |
| Utils.DegToRadZero | src/Utils/Utils.h:17-19 | degToRad(0) == 0 |
| Utils.DegToRadStraightAngle | src/Utils/Utils.h:15-19 | degToRad(180) == pi |
| Utils.DegToRadAdditive | src/Utils/Utils.h:17-19 | degToRad(a + b) == degToRad(a) + degToRad(b) |
| Utils.DegToRadStrictlyIncreasing | src/Utils/Utils.h:15-19 | a < b implies degToRad(a) < degToRad(b) |
| Rays.Ray.At | src/Raytracing/Ray.h:25-27 | the point origin + t * direction; AtZero and AtAffine prove it starts at the origin and is affine in t |
| Rays.AtZero | src/Raytracing/Ray.h:25-27 | at(0) is the origin |
| Rays.AtAffine | src/Raytracing/Ray.h:25-27 | at(s + t) == at(s) + t * direction |
| Hittable.WithFaceNormal | src/Raytracing/Hittable.cpp:5-8 | frontFace iff dot(dir, outwardNormal) < 0; the normal is outwardNormal or its negation accordingly; the normal opposes the ray; p, t and mat are untouched |
| Hittable.FaceNormalOverwrites | src/Raytracing/Hittable.cpp:5-8 | the result does not depend on the normal and frontFace held before |
| Hittable.FaceNormalIdempotent | src/Raytracing/Hittable.cpp:5-8 | applying setFaceNormal twice with the same arguments equals applying it once |
| Hittable.HitData.constructor | src/Raytracing/HittableList.h:15 | a fresh hitData, as declared in the loop of HittableList::hit |
| Hittable.HitData.SetFaceNormal | src/Raytracing/Hittable.cpp:5-8 | the object's new contents are WithFaceNormal of its old contents |
| Hittable.HitData.CopyFrom | src/Raytracing/HittableList.h:23 | the copy assignment leaves the target equal to the source record |
| Spheres.Discriminant | src/Raytracing/Objects/Sphere.cpp:6-12 | h^2 - a c for a = dot(d, d), h = dot(d, center - origin), c = |center - origin|^2 - radius^2; RootSolves proves both roots built from it solve a t^2 - 2 h t + c = 0 |
| Spheres.OutwardNormal | src/Raytracing/Objects/Sphere.cpp:28 | (p - center) / radius; RootOnSurface proves it has unit length at a point on a sphere of positive radius |
| Spheres.RecordAt | src/Raytracing/Objects/Sphere.cpp:25-29 | t, p = r.at(t) and the sphere's material, with the face normal set from the outward normal; RootOnSurface proves p lies on the sphere |
| Spheres.HitOf | src/Raytracing/Objects/Sphere.cpp:4-32 | the record Sphere::hit reports, or None; HitOfSound, HitPrefersNearRoot, HitOfAccepted and HitOnSurface state which root is taken and where the hit lies, and Hit proves the method equal to it |
| Spheres.NewSphere | src/Raytracing/Objects/Sphere.h:7-8 | centre and material are stored as given; the radius is >= 0; a negative radius is stored as 0 and a non-negative one unchanged |
| Spheres.AcceptedRoot | src/Raytracing/Objects/Sphere.cpp:12-23 | no root on a negative discriminant; an accepted root lies strictly inside rayT |
| Spheres.Hit | src/Raytracing/Objects/Sphere.cpp:4-32 | returns true iff HitOf reports a record; then data holds that record; on false data is unchanged |
| Spheres.HitOfSound | src/Raytracing/Objects/Sphere.cpp:12-29 | a negative discriminant gives a miss; a reported t lies strictly inside rayT, p == r.at(t), mat is the sphere's, and the normal opposes the ray |
| Spheres.HitPrefersNearRoot | src/Raytracing/Objects/Sphere.cpp:17-23 | the nearer root is used whenever it is strictly inside rayT; only otherwise is the farther root tried, and if it is outside too there is no hit |
| Spheres.HitOfAccepted | src/Raytracing/Objects/Sphere.cpp:17-29 | a hit is reported exactly when a root is accepted, and its record is the record at that root |
| Spheres.AcceptedIsRoot | src/Raytracing/Objects/Sphere.cpp:12-23 | an accepted root comes from a non-negative discriminant with a != 0 and is one of the two roots |
| Spheres.RootSolves | src/Raytracing/Objects/Sphere.cpp:8-20 | both (h - sqrt(delta)) / a and (h + sqrt(delta)) / a solve a t^2 - 2 h t + c = 0 when sqrt is a square root |
| Spheres.HitIsRoot | src/Raytracing/Objects/Sphere.cpp:8-23 | the t Sphere::hit accepts solves a t^2 - 2 h t + c = 0 |
| Spheres.RootOnSurface | src/Raytracing/Objects/Sphere.cpp:25-29 | the record written for a root lies on the sphere; for a positive radius its normal has unit length |
| Spheres.HitOnSurface | src/Raytracing/Objects/Sphere.cpp:8-29 | every reported hit lies on the sphere, with a unit normal when the radius is positive |
| Spheres.RootsOrdered | src/Raytracing/Objects/Sphere.cpp:16-20 | the nearer root is never beyond the farther one |
| Spheres.NarrowedHit | src/Raytracing/Objects/Sphere.cpp:17-23 | lowering the far bound to b keeps a hit exactly when its t is below b, and never creates a hit |
| Spheres.HitWhenInFront | src/Raytracing/Objects/Sphere.cpp:8-23 | a ray starting outside a sphere that lies ahead of it, with a non-negative discriminant, hits it at the nearer root within (0, infinity) |
| HittableLists.ListHit | src/Raytracing/HittableList.h:14-28 | the fold over the children that narrows the far bound to the best t so far; ListHitNearest and ListHitSomeIff prove it is the first nearest child hit, and HittableList.Hit proves the method equal to it |
| HittableLists.ListHitStep | src/Raytracing/HittableList.h:19-25 | one loop iteration: the next child is queried up to the best t so far and replaces the best hit only when it hits |
| HittableLists.ListHitWithin | src/Raytracing/HittableList.h:14-28 | a reported hit lies strictly inside the original rayT |
| HittableLists.BoundNonIncreasing | src/Raytracing/HittableList.h:17-24 | closestHit never grows from one child to the next and never exceeds rayT._max |
| HittableLists.MissStep | src/Raytracing/HittableList.h:19-25 | a miss of the list is a miss of the last child and of the earlier ones |
| HittableLists.ListHitMisses | src/Raytracing/HittableList.h:14-28 | the list misses only when every child misses within rayT |
| HittableLists.ListHitNoFarther | src/Raytracing/HittableList.h:14-28 | a reported t is no larger than the t of any child that hits within rayT: it is the minimum |
| HittableLists.ListHitFirstNearest | src/Raytracing/HittableList.h:20 | the reported record is the own hit of some child k, and every earlier child that hits does so strictly farther away, so the first child found at the nearest t wins ties |
| HittableLists.ListHitNearest | src/Raytracing/HittableList.h:14-28 | the three facts above together: a miss iff no child hits, otherwise the first nearest child hit |
| HittableLists.ListHitSomeIff | src/Raytracing/HittableList.h:14-28 | the list reports a hit iff some child hits within the original rayT |
| HittableLists.HittableList.Empty | src/Raytracing/HittableList.h:10 | the default constructor leaves a null array with objectsSize 1, on which hit may not be called |
| HittableLists.HittableList.constructor | src/Raytracing/HittableList.h:11 | stores the array and the size as given |
| HittableLists.HittableList.Hit | src/Raytracing/HittableList.h:14-28 | visits objects[0..objectsSize) in order; returns true iff ListHit reports a record, then data is that record; on false data is unchanged |
| Materials.NewMetal | src/Raytracing/Materials/Metal.h:9 | fuzz is capped at 1: inputs >= 1 become exactly 1 and smaller ones are kept; albedo is stored as given |
| Materials.R0 | src/Raytracing/Materials/Dielectric.h:53-54 | ((1 - ri) / (1 + ri))^2; R0Bounds proves it lies in [0, 1) for ri > 0 |
| Materials.Reflectance | src/Raytracing/Materials/Dielectric.h:52-56 | Schlick's r0 + (1 - r0)(1 - cos)^5; ReflectanceAtNormalIncidence and ReflectanceBounds prove its value at cos = 1 and its range [r0, 1] |
| Materials.ReflectanceAtNormalIncidence | src/Raytracing/Materials/Dielectric.h:52-56 | reflectance(1, ri) == ((1 - ri) / (1 + ri))^2 |
| Materials.R0Bounds | src/Raytracing/Materials/Dielectric.h:52-54 | for ri > 0, r0 lies in [0, 1) |
| Materials.ReflectanceBounds | src/Raytracing/Materials/Dielectric.h:52-56 | for ri > 0 and cos in [0, 1], the reflectance lies in [r0, 1] |
| Numerics.PowUnitInterval | src/Raytracing/Materials/Dielectric.h:55 | a power with a natural exponent of a number in [0, 1] stays in [0, 1] |
| Scattering.LambertianScatter | src/Raytracing/Materials/Lambertian.h:11-22 | always scatters; attenuation is the albedo; the ray starts at p; its direction is normal + random vector, or exactly the normal when that sum is near zero |
| Scattering.MetalDirection | src/Raytracing/Materials/Metal.h:12-13 | normalize(reflect(direction, normal)) + fuzz * the random vector; MetalWithoutFuzz proves it is the normalised reflection when fuzz is 0 |
| Scattering.MetalScatter | src/Raytracing/Materials/Metal.h:11-19 | attenuation and ray are written whatever it returns: albedo, origin p, direction normalize(reflect) + fuzz * random; it returns true iff that direction is on the normal's side |
| Scattering.MetalWithoutFuzz | src/Raytracing/Materials/Metal.h:12-13 | with fuzz 0 the direction is the normalised reflection |
| Scattering.RefractionRatio | src/Raytracing/Materials/Dielectric.h:31 | ri is the reciprocal of refractionIndex on a front face and refractionIndex otherwise |
| Scattering.CosAlpha | src/Raytracing/Materials/Dielectric.h:34 | the cosine is at most 1 and is either 1 or dot(-unit, normal), whichever is smaller |
| Scattering.CannotRefract | src/Raytracing/Materials/Dielectric.h:35-37 | ri * sqrt(1 - cos^2) > 1, false when 1 - cos^2 is negative (a NaN compares false); TotalInternalReflectionIgnoresDraw proves the draw is then irrelevant |
| Scattering.DielectricScatter | src/Raytracing/Materials/Dielectric.h:30-46 | always scatters with attenuation (1, 1, 1) from p; reflects when it cannot refract; otherwise reflects iff reflectance > draw and refracts if not |
| Scattering.TotalInternalReflectionIgnoresDraw | src/Raytracing/Materials/Dielectric.h:37-41 | when ri * sin > 1 the result is the same for every random draw |
| Scattering.Scatter | src/Raytracing/Materials/Material.h:8-10 | the base material declines and leaves the out-parameters untouched; Lambertian and Dielectric always scatter; every variant but the base starts the ray at p; Lambertian and Metal attenuate by their albedo |
| Shading.SkyBlend | src/Raytracing/Ray.h:19-20 | a = 0.5 * (normalize(dir).y + 1); SkyInUnitCube proves it lies in [0, 1] for a non-zero direction |
| Shading.NormalShade | src/Raytracing/Ray.h:16 | 0.5 * (normal + (1, 1, 1)); NormalShadeInUnitCube proves it maps [-1, 1] components into [0, 1] |
| Shading.Sky | src/Raytracing/Ray.h:19-22 | the blue channel of the gradient is exactly 1 |
| Shading.Color | src/Raytracing/Ray.h:13-23 | alpha is 1; the rgb part is the normal shading of the nearest hit in (0, infinity) when there is one and the sky gradient otherwise |
| Shading.NormalShadeInUnitCube | src/Raytracing/Ray.h:14-16 | a normal with components in [-1, 1] shades to a colour in [0, 1] |
| Shading.SkyInUnitCube | src/Raytracing/Ray.h:19-22 | for a non-zero direction the blend factor lies in [0, 1], and so does every channel of the sky |
| Shading.EmptySceneIsSky | src/Raytracing/Ray.h:13-23 | an empty scene shows the sky for every ray |
| Shading.ListHitFromChild | src/Raytracing/HittableList.h:14-28 | the record of a list hit is the own hit of one of the children |
| Shading.ColorInUnitCube | src/Raytracing/Ray.h:13-23 | in a scene of spheres with positive radii, every channel of a ray's colour lies in [0, 1] |
| Pixels.Trunc | src/Camera.cpp:89-91 | int(x) truncates toward zero: the floor for x >= 0, within 1 of x and of the same sign |
| Pixels.ToByte | src/Camera.cpp:93 | the int-to-unsigned-char narrowing keeps values in [0, 256) |
| Pixels.Row | src/Camera.cpp:59-67 | row j holds w pixels, pixel i being f(i, j) |
| Pixels.RowPrefixStep | src/Camera.cpp:59-67 | appending pixel (i, j) to the first i pixels of row j gives its first i + 1 |
| Pixels.RowMajor | src/Camera.cpp:57-68 | the rows 0 .. h-1 of f one after the other; RowMajorLength, RowMajorIndex and RowMajorAll prove its length, that entry j * w + i is f(i, j), and that a pixel property holds of every entry |
| Pixels.RowMajorLength | src/Camera.cpp:57-68 | the buffer of h rows holds w * h pixels |
| Pixels.RowMajorIndex | src/Camera.cpp:57-68 | entry j * w + i of the buffer is pixel (i, j) |
| Pixels.RowMajorAll | src/Camera.cpp:57-68 | a property of every pixel holds of every buffer entry |
| Viewport.ViewportGrid | src/Camera.cpp:17-30 | pixel00 and the per-pixel deltas of a w x h image under a viewport 2 high and 2 w / h wide, one unit in front of the centre; GridFromViewport proves it equal to the constructor's vector expressions |
| Viewport.PixelRay | src/Camera.cpp:72-80 | the ray from the centre towards pixel00 + (i + ox) du + (j + oy) dv; PixelDirection and SampleOnViewport place it on the viewport |
| Viewport.GridFromViewport | src/Camera.cpp:17-30 | the grid equals the one computed from the viewport vectors: deltas u / w and v / h, the upper-left corner center - (0, 0, 1) - u / 2 - v / 2, and pixel00 half a delta in from it |
| Viewport.PixelDirection | src/Camera.cpp:72-77 | the ray through pixel (i, j) with offset (ox, oy) points at ((i + ox + 1/2) / w, (j + oy + 1/2) / h) of the way across and down the viewport, one unit in front |
| Viewport.SampleFraction | src/Camera.cpp:75-76 | a sample offset in [-1/2, 1/2) of a pixel inside the image lands in [0, 1) of the image's extent |
| Viewport.SampleOnViewport | src/Camera.cpp:72-85 | every jittered sample ray of an image pixel passes through the viewport: x in [-vw/2, vw/2), y in (-1, 1], z = -1 |
| Cameras.ImageHeight | src/Camera.cpp:10-12 | the image height is at least 1 |
| Cameras.ImageHeightIsFloor | src/Camera.cpp:10-12 | the height is 1 when width / aspectRatio < 1, and otherwise the whole part of that ratio |
| Cameras.SampleSquare | src/Camera.cpp:83-85 | the offset has z = 0 and, for draws in [0, 1), x and y in [-0.5, 0.5) |
| Cameras.Quantise | src/Camera.cpp:88-91 | a channel <= 0 gives 0, one >= 0.999 gives 255, and one in between gives floor(256 c) |
| Cameras.QuantiseMonotone | src/Camera.cpp:88-91 | a brighter channel never gives a smaller byte |
| Cameras.ConvertColor | src/Camera.cpp:87-95 | r, g and b are the quantised channels; alpha is always 255 |
| Cameras.CameraRayColor | src/Camera.cpp:37-51 | Camera::rayColor agrees with the rgb part of Ray::color: normal shading of a hit in (0, infinity), sky gradient on a miss |
| Cameras.ImagePixel | src/Camera.cpp:55-68 | the image has width * height entries and entry j * width + i is pixel (i, j) |
| Cameras.ImageOpaque | src/Camera.cpp:66 | every pixel of the image has alpha 255 |
| Cameras.SingleCentredSample | src/Camera.cpp:60-66 | with one sample, scale 1 and centred draws, a pixel is the colour of the un-jittered ray through it |
| Cameras.SampleSum | src/Camera.cpp:60-64 | the sum of the first n sample colours of pixel (i, j); SampleSumBounds proves it lies in [0, n] per channel, and Camera.SamplePixel proves the loop computes it |
| Cameras.PixelColor | src/Camera.cpp:66 | convertColor of pixelSampleScale times the sample sum; SingleCentredSample and PixelAverageInUnitCube state its value and range before quantisation |
| Cameras.Image | src/Camera.cpp:55-68 | the row-major image of PixelColor; ImagePixel and ImageOpaque prove its size, its indexing and its alpha, and Camera.Render proves the loops build it |
| Cameras.SampleSumBounds | src/Camera.cpp:61-64 | the sum of n sample colours in the unit cube lies in [0, n] per channel |
| Cameras.AverageInUnitCube | src/Camera.cpp:66 | scaling a colour in [0, n] by 1 / n lands in the unit cube |
| Cameras.PixelAverageInUnitCube | src/Camera.cpp:60-66 | for any non-zero sample count over spheres with positive radii, the averaged colour of every pixel lies in the unit cube before quantisation; a negative count takes no sample and gives black |
| Cameras.Camera.constructor | src/Camera.cpp:4-35 | stores the samples, aspect and width; the height is ImageHeight; maxRecursionDepth keeps its default 10; the centre is the origin; the buffer is empty; pixelSampleScale is 1 / perPixelSamples and the grid is the viewport grid (Valid) |
| Cameras.Camera.SetUpViewport | src/Camera.cpp:17-30 | pixel00_loc and the deltas become the viewport grid of the image size |
| Cameras.Camera.GetImageSize | src/Camera.h:17 | returns imageSize without changing state; a constructed camera's size is at least 1 x 1 |
| Cameras.Camera.GetPixelData | src/Camera.h:18 | returns the buffer without changing state |
| Cameras.Camera.GetRay | src/Camera.cpp:72-80 | the ray starts at the camera centre and points at pixel00 + (i + ox) du + (j + oy) dv, where (ox, oy) is sampleSquare of the draws |
| Cameras.GetRayOnViewport | src/Camera.cpp:72-85 | for a constructed camera, a pixel of the image and draws in [0, 1), the ray returned by getRay passes through the viewport: x in [-vw/2, vw/2), y in (-1, 1], z = -1 |
| Cameras.Camera.SamplePixel | src/Camera.cpp:60-64 | the sum of perPixelSamples rayColor values, sample s jittered by the draws uniform(i, j, s) |
| Cameras.Camera.Render | src/Camera.cpp:53-70 | the buffer becomes the row-major image whose pixels are convertColor(pixelSampleScale * the sample sum); only data changes |
| Cameras.CentrePixelSeesSphere | Source.cpp:119-122 | a 400-wide 16:9 camera has 225 rows, and the un-jittered ray through pixel (200, 112) hits the sphere of radius 0.5 at (0, 0, -1) |
| SourceMain.Channel | Source.cpp:44-47 | for c in [0, 1] the byte is floor(255.999 c) |
| SourceMain.ChannelEnds | Source.cpp:43-51 | channel 0 gives 0 and channel 1 gives 255 |
| SourceMain.ChannelMonotone | Source.cpp:44-47 | on [0, 1] a brighter channel never gives a smaller byte |
| SourceMain.ConvertColor | Source.cpp:43-51 | all four channels, alpha included, are quantised alike |
| SourceMain.OpaqueAlpha | Source.cpp:47 | an input alpha of 1 is stored as 255 |
| SourceMain.WindowHeight | Source.cpp:66-69 | the window height is max(1, width / aspectRatio): at least both, and equal to one of them |
| SourceMain.Iterations | Source.cpp:130-132 | how many times `for (int k = 0; k < x; k++)` runs for a real bound x; IterationsCount and IterationsOfWhole prove the count |
| SourceMain.IterationsCount | Source.cpp:130-132 | counter value k passes the loop test `k < x` exactly when it is one of the first Iterations(x) values |
| SourceMain.IterationsOfWhole | Source.cpp:130-132 | on a whole bound n the loop runs exactly n times |
| SourceMain.DefaultWindow | Source.cpp:66-69 | the 800-wide 16:9 window is 450 rows high and its loops run 800 x 450 times |
| SourceMain.TraceWindow | Source.cpp:104-141 | the buffer is the row-major image of the window, each pixel convertColor(Ray::color) of the un-jittered ray from the origin through its centre |
| SourceMain.WindowOpaque | Source.cpp:139 | every pixel of the window's image has alpha 255, since Ray::color has alpha 1 |
| SourceMain.WindowPixel | Source.cpp:133-139 | convertColor(Ray::color) of the un-jittered ray from the origin through pixel (i, j); WindowRay, WindowOpaque and TraceWindow prove its ray, its alpha and that the loop builds the image of it |
| SourceMain.WindowPixelAt | Source.cpp:130-141 | the window's image has w * h entries and entry j * w + i is pixel (i, j) |
| SourceMain.WindowRay | Source.cpp:133-136 | each ray starts at the camera centre and points at pixel00 + i * du + j * dv |

## Left out

- Floating point: scalars are exact reals, so IEEE rounding, float/double mixing, NaN and overflow are not modelled. Examples are `16.0f / 9.0f` not being exactly 16/9, and `1.0f / 0` being infinite. The few NaN cases that decide a branch are written out: `sqrt` of a negative in Dielectric.h:35, the roots 0/0 for a zero direction in Sphere.cpp, and inf - inf in size.
- Spheres.OutwardNormal: for a zero radius the source divides by zero; the model uses the zero vector there.
- Cameras.Camera.constructor: requires a width of at least 1, a non-zero sample count and a height that fits in 32 bits. A width of 0 makes the deltas 0/0, zero samples give an infinite scale, and an out-of-range double-to-u32 conversion is undefined.
- Spheres and the camera's scene are spheres only: a HittableList nested inside another is not modelled.
- The helpers defined outside the modelled files are parameters whose laws are assumed where needed: `sqrt`, `normalize`, `reflect`, `refract`, `nearZero`, `randomInUnitSphereVector` and `generateRandomNumber`.
- Numerics.Pow: only `pow` with the natural exponent 5 occurs, and it is modelled exactly.
- I/O: the `std::clog` progress output, the GLFW/GLEW/ImGui window, the texture upload and the draw loop of `main`.
- Memory management: `shared_ptr` ownership of materials and the `delete[]` of the list.
- CUDA: the `__device__`/`__host__` qualifiers and the `curandState*` argument of the base `Material::scatter`. The base method's signature differs from the variants', so in the code as written they do not override it; the model dispatches on the material datatype, with the base default as `Absorb`.
- `maxRecursionDepth`: it is stored but never read; there is no bounce loop, and `rayColor` shades by the first hit only.
- Camera.h field defaults: `aspectRatio`, `perPixelSamples` and `imageSize` have defaults that the constructor always overwrites, so only `maxRecursionDepth = 10` is kept.
- Camera.h declares a 4-argument constructor and a `rayColor` with a depth argument; Camera.cpp defines neither, so the defined ones are modelled.
- Cameras.Camera: the fields `pixel00_loc`, `pixelDelta_u` and `pixelDelta_v` are held together as one `grid` field. `data.reserve` is a capacity hint with no visible effect.
- Viewport.ViewportGrid: the grid is computed component by component; GridFromViewport proves it equal to the constructor's vector expressions.
- `Interval()` at Interval.cpp:4 initialises `min` and `max`, which are not members (the members are `_min` and `_max`). The model gives the evident intent, an empty interval.
- Source.cpp:121-122 builds spheres without a material and with `worldObjects.add`, which this `HittableList` does not have. The window loop therefore takes its scene as a parameter.
- SourceMain.Channel: the narrowing of `int(255.999 * c)` to `unsigned char` is defined as reduction mod 256, and the model does that. The truncating float-to-int conversion before it is undefined when the value is out of the range of `int`; the model uses the mathematical truncation there.
- Shading.Color: `Ray::color` calls the virtual `world.hit`; the model calls the specification function of `HittableList::hit`, which that method is proved to return.
- `Diaelectric.h` is an unfinished duplicate of Dielectric.h that does not compile; it is not part of this model.
