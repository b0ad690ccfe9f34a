# swaybg background setter, modelled in Dafny

swaybg is the helper that sway spawns to paint one output's background. It
is given an output index, an image path or a `#rrggbb` colour, and a mode
(`solid_color`, `stretch`, `fill`, `fit`, `center` or `tile`). It makes a
desktop-shell background surface for that output, paints it once, and then
serves the Wayland event loop until the connection closes.

This model covers the logic of `swaybg/main.c` that does not depend on
Wayland or cairo:

- `Color`: the colour validator `is_valid_color`, as a method with a loop
  (`IsValidColor`) proved against the predicate `ValidColor`. It also
  models which rejections are logged.
- `Scaling`: the `scaling_mode` enum and the `strcmp` chain that parses the
  mode argument (`ParseScalingMode`), with its inverse `ModeName`.
- `Placement`: the per-mode paint transform (`Compute`). It gives the
  scale, the source offset and the repeat flag over a target of the
  output's physical pixels. Each mode's promise is stated geometrically
  (`Meets`): stretch maps the image exactly onto the target; fill covers
  it; fit lies inside it; fill and fit are both centred and touch the
  target on one axis; center and tile keep the natural size. The lemmas
  prove that `Compute` keeps each promise and that it is the only transform
  that does.
- `Startup`: the order of the checks in `main` as one decision (`Decide`).
  It also holds the surface list as a class (`Surfaces`) with its
  `list_add` and its paint pass, and `Run`, which chains the two the way
  `main` does.

Arithmetic is exact (`real`). The program uses doubles, but every formula is
a ratio, and the properties hold exactly over the reals.

The program never aborts on a malformed colour. If the mode is
`solid_color` and the colour is malformed, the colour string is loaded as
an image path. If that load
succeeds, the mode parse then rejects `solid_color` as an unsupported
scaling mode (`Startup.InvalidSolidColorFallsThrough`).

The paint pass takes its target size from the window `main` has just
created, and uses it for every surface in the list. With one surface in the
list, as `main` builds it, this is that surface's own size.

## Model

| member | source | states |
|---|---|---|
| Color.IsValidColor | swaybg/main.c:38-53 | accepts exactly the strings of length 7 that start with `#` and continue with six `isxdigit` characters; logs an error exactly when the length or the `#` is wrong, never for a bad digit |
| Color.ValidColorIgnoresCase | swaybg/main.c:46-50 | lower-casing a string does not change whether it is accepted, so `A-F` and `a-f` are alike |
| Color.ColorExamples | swaybg/main.c:38-53 | `#a1B2c3` is accepted; `a1B2c3`, `#a1B2c`, `#a1B2c3Z` and `#a1B2zz` are rejected |
| Scaling.ParseScalingMode | swaybg/main.c:106-120 | succeeds exactly on `stretch`, `fill`, `fit`, `center` and `tile`, and the parsed mode's name is the argument |
| Scaling.ParseModeName | swaybg/main.c:19-25 | every one of the five modes is reached by parsing its own name, so the five are distinct and all reachable |
| Scaling.ParseInjective | swaybg/main.c:108-117 | two arguments that parse to the same mode are the same string |
| Scaling.SolidColorIsNotAScalingMode | swaybg/main.c:118-119 | `solid_color` and `zoom` are both rejected by the mode parse |
| Placement.Compute | swaybg/main.c:128-189 | total over the five modes, so the `default:` abort cannot be reached; scales are positive, only tile repeats, and every mode but stretch scales both axes alike |
| Placement.StretchExact | swaybg/main.c:129-134 | stretch has no offset, and `scaleX * iw == tw` and `scaleY * ih == th`: the image lands exactly on the target |
| Placement.FillScale | swaybg/main.c:137-152 | fill's scale is the larger of `tw/iw` and `th/ih`, covers both axes and matches one; both offsets are the centring offsets, the literal 0 being the centring offset on the matched axis |
| Placement.FitScale | swaybg/main.c:157-172 | fit's scale is the smaller of `tw/iw` and `th/ih`, fits both axes and matches one; both offsets are the centring offsets, the literal 0 being the centring offset on the matched axis |
| Placement.FillCovers | swaybg/main.c:135-154 | fill scales uniformly by the larger of `tw/iw` and `th/ih`; the image covers the target, is centred on it and matches it on one axis; both offsets are at most 0 and one is 0 |
| Placement.FitInside | swaybg/main.c:155-174 | fit scales uniformly by the smaller of `tw/iw` and `th/ih`; the image lies inside the target, is centred on it and matches it on one axis; both offsets are at least 0 and one is 0 |
| Placement.CenterAndTileUnscaled | swaybg/main.c:175-186 | center keeps scale 1 and puts the image centre on the target centre; tile keeps scale 1, has no offset and repeats |
| Placement.ComputeMeets | swaybg/main.c:128-189 | every mode's transform keeps that mode's geometric promise |
| Placement.FillUnique | swaybg/main.c:135-154 | at most one transform is uniform, covering, centred and tight on one axis |
| Placement.FitUnique | swaybg/main.c:155-174 | at most one transform is uniform, inside, centred and tight on one axis |
| Placement.StretchUnique | swaybg/main.c:129-134 | at most one transform maps the image exactly onto the target |
| Placement.MeetsOnlyCompute | swaybg/main.c:128-189 | any transform that keeps a mode's promise is the computed one |
| Placement.FillFitCoincide | swaybg/main.c:137-172 | fill and fit give the same transform exactly when `tw/th == iw/ih`; the tie takes the height-driven scale `th/ih` with offset (0, 0) |
| Placement.PlacementExamples | swaybg/main.c:135-174 | 1280x720 filling 1920x1080 gives scale 1.5 and offset (0, 0); 800x600 fitted to 1920x1080 gives scale 1.8 and offset (400/3, 0) |
| Startup.Decide | swaybg/main.c:60-120 | fixes the order of the checks, one clause per outcome: aborts on the argument count exactly when it is not 4; on the desktop shell exactly when the count is right and the shell is missing; on surface setup exactly when both pass and the surface is not created; paints a solid colour exactly when all three pass, the mode is `solid_color` and the colour is valid; otherwise aborts on the image load exactly when it fails; then aborts naming the mode argument exactly when the mode does not parse; and paints the image, with the mode the argument names, exactly when it does |
| Startup.DecidedImageMeetsMode | swaybg/main.c:122-189 | a decided image transform keeps its mode's promise over the output's physical size (width and height times scale), and no other transform does |
| Startup.InvalidSolidColorFallsThrough | swaybg/main.c:81-120 | `solid_color` with a malformed colour aborts on the image load if the colour is not a loadable path, and otherwise as an unsupported mode, never as a colour error |
| Startup.UnknownModeNeverPaints | swaybg/main.c:81-120 | every mode argument other than the five mode names and `solid_color` ends in an abort, before any paint; past the environment checks the abort is the image load's if it fails, the mode's otherwise |
| Startup.DrawableIndicesExact | swaybg/main.c:125-127 | the surfaces the paint pass selects are exactly the drawable ones, each once, in list order |
| Startup.Surfaces.constructor | swaybg/main.c:57 | the surface list starts empty |
| Startup.Surfaces.Add | swaybg/main.c:79 | the new window is appended to the list |
| Startup.Surfaces.PaintAll | swaybg/main.c:125-195 | paints exactly the drawable surfaces, in list order, each with the transform computed for the target size and mode |
| Startup.PaintedExactlyDrawable | swaybg/main.c:125-195 | after the paint pass a surface is painted if and only if it is drawable, and no surface is painted twice |
| Startup.Run | swaybg/main.c:55-198 | start-up reaches the decided outcome, and paints the one new surface, with the decided transform, exactly when an image is decided and the surface is drawable |

## Left out

- Wayland plumbing: registry polling, window setup, the desktop-shell background request, the shell role, and the event-dispatch loop. Their results appear only as the parameters `desktopShell`, `outputs`, `surfaceCreated` and `drawable`.
- Teardown of the surfaces and the registry at exit and in `sway_terminate`. It only releases foreign resources.
- Image decoding, by gdk-pixbuf or by cairo's PNG loader. It becomes the parameter `image`: a failure, or a width and height. The program's three load failures (no pixbuf, no surface, a bad surface status) are one `ImageLoadFailed`.
- Colour parsing and the cairo calls that paint (`parse_color`, `cairo_set_source_u32`, `cairo_scale`, `cairo_set_source_surface`, `cairo_pattern_*`, `cairo_paint`, `window_render`). The model records the transform, not the pixels.
- Log messages other than the colour validator's, and the text of abort messages. Aborts are the `AbortReason` constructors.
- IEEE double rounding in the placement arithmetic. The model computes exactly over `real`.
- Startup.Decide: `atoi` on the output index, and the unchecked index into the output list, are not modelled as errors. An index in range is a precondition once the first two checks pass.
- Startup.Decide: `int` overflow of `width * scale` is not modelled. Target sizes are unbounded integers.
- Color.IsValidColor: counts the length of the colour in characters, where `strlen` counts bytes. Acceptance agrees on every input, since all seven accepted characters are ASCII. The logged-error flag differs on non-ASCII input: `#abc€` is 7 bytes, so the program logs nothing and rejects it at the first non-hex byte, while the model sees 5 characters and logs.
- Image and output sizes of zero, and a zero output scale, are excluded by precondition (`Positive`, `UsableOutput`, the `image` requirement of `Decide`). In stretch, fill and fit a zero image side, and in fill and fit a zero target height, make the program divide by zero, giving an IEEE infinity or NaN that `real` cannot express. Center and tile divide by no dimension, but are excluded too.
