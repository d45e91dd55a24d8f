# Image fit for the meme generator

The meme generator (a browser page) loads an image chosen by the user and draws
it onto a fixed canvas. `getDimmensions` in `script.js` decides where the image is
drawn. It computes the image's aspect ratio. A portrait image (ratio below 1)
fills the canvas height and is centred horizontally. Every other image, a square
one included, fills the canvas width and is centred vertically. The result is
`{width, height, startX, startY}`. `startX` and `startY` are the top-left corner
of the drawn image.

This project models that calculation in Dafny as the pure function
`ImageFit.GetDimensions` (file `image_fit.dfy`), over mathematical reals. It
returns a `Placement` datatype. The lemmas beside it prove these properties:

- which axis is filled;
- the aspect ratio is kept, and the image is scaled uniformly;
- the image is centred on both axes;
- the drawn size is positive;
- on a square canvas the image fits, and it is the largest copy that does;
- exactly when it fits on any other canvas;
- the worked examples.

`GetDimensions` requires only `imageHeight > 0`. That is what the division at
`script.js:54` needs. A zero image width is handled by the code: it takes the
portrait branch and gives a zero drawing width. The properties about positive
size, scaling and fit also assume positive canvas and image sides.

The function is called `getDimmensions` in the source; the model spells it
`GetDimensions`.

## Model

| member | source | states |
|---|---|---|
| `ImageFit.AspectRatio` | script.js:53-54 | the ratio times the image height is the image width; it is below 1 exactly when the image is narrower than it is tall, so the `aspectRatio < 1` test is the portrait test `imageWidth < imageHeight` |
| `ImageFit.GetDimensions` | script.js:50-77 | a portrait image fills the canvas height with `startY == 0`; any other image fills the canvas width with `startX == 0`; both axes are centred (`2*startX + width == canvasWidth`, `2*startY + height == canvasHeight`); the aspect ratio is kept (`width * imageHeight == height * imageWidth`) |
| `ImageFit.CentredFillIsGetDimensions` | script.js:57-74 | a placement fills the axis the portrait test picks, keeps the ratio and is centred on both axes if and only if it is the computed placement, so these properties pin the result down completely |
| `ImageFit.OneAxisFilled` | script.js:57-74 | the drawn width equals the canvas width or the drawn height equals the canvas height |
| `ImageFit.SquareImage` | script.js:57-73 | a square image fails the strict `< 1` test and takes the else branch: it is drawn as a `canvasWidth` square at `startX == 0`, centred vertically |
| `ImageFit.PositiveSize` | script.js:59-70 | with a positive canvas and a positive image, the drawn width and height are positive |
| `ImageFit.UniformScaling` | script.js:54-70 | the image is not stretched: some positive factor scales both its width and its height to the drawn size |
| `ImageFit.FitsCanvasIff` | script.js:57-74 | the drawing lies inside the canvas if and only if, for a portrait image, `canvasHeight * imageWidth <= canvasWidth * imageHeight`, and otherwise `canvasWidth * imageHeight <= canvasHeight * imageWidth` |
| `ImageFit.FitsSquareCanvas` | script.js:39-41 | on a square canvas every positive image is drawn inside the canvas (`0 <= startX`, `0 <= startY`, right and bottom edges within the canvas), as the doc comment promises |
| `ImageFit.LargestFitOnSquareCanvas` | script.js:39-41 | on a square canvas every uniformly scaled copy of the image that fits is no larger than the drawn one |
| `ImageFit.BestFitOnSquareCanvas` | script.js:39-41 | on a square canvas the drawing lies inside the canvas, is the image scaled by one factor `t`, and every scaled copy of the image that fits the canvas uses a factor no larger than `t` |
| `ImageFit.TallCanvasOverflows` | script.js:57-64 | on a 100 x 1000 canvas a 9 x 10 portrait image is drawn 900 wide from `startX == -400`, so outside a square canvas the fit is not guaranteed |
| `ImageFit.FitNotGuaranteed` | script.js:57-74 | there are a positive canvas and a positive image whose drawing does not lie inside the canvas, so the fit promised by the doc comment needs a square canvas |
| `ImageFit.ExampleSquare` | script.js:66-76 | `(500, 500, 500, 500)` gives `{500, 500, 0, 0}` |
| `ImageFit.ExampleLandscape` | script.js:66-76 | `(500, 500, 1000, 500)` gives `{500, 250, 0, 125}` |
| `ImageFit.ExamplePortrait` | script.js:57-76 | `(500, 500, 500, 1000)` gives `{250, 500, 125, 0}` |

## Left out

- Floating point: numbers are exact reals. IEEE-754 rounding is not modelled. Neither are the `Infinity` and `NaN` that `imageHeight == 0` produces at `script.js:54`; the model requires `imageHeight > 0` instead.
- The `Image` object, its `load` listener, the canvas context and the `fillRect` and `drawImage` calls (`script.js:3-23`) are browser rendering I/O. Their only use of the model is to pass the canvas and image sizes to `GetDimensions`.
- Handling the file input with `URL.createObjectURL` (`script.js:25-29`) is browser I/O.
- The Generate button handler (`script.js:31-37`) is an unfinished stub with no logic.
- Caption wrapping, speech synthesis, volume controls and form reset do not appear in `script.js`, so they are not part of this model.
