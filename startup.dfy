/**
 * The start-up sequence of swaybg as one decision, and the list of
 * background surfaces it paints. The windowing system, the image decoder
 * and the drawing library stay outside: their answers are parameters.
 */
module Startup {
  import opened Wrappers
  import opened Color
  import opened Scaling
  import opened Placement

  /** Why the program aborts, one constructor per abort in start-up order. */
  datatype AbortReason =
    | WrongArgumentCount
    | NoDesktopShell
    | SurfaceSetupFailed
    | ImageLoadFailed
    | UnsupportedMode(mode: string)

  /** What decoding the image argument gives: nothing, or the natural size. */
  datatype ImageLoad = LoadFailed | Loaded(width: int, height: int)

  /** An output as the compositor reports it: logical size and integer scale factor. */
  datatype Output = Output(width: int, height: int, scale: int)

  datatype Outcome =
    | Abort(reason: AbortReason)
    | PaintSolidColor(color: string)
    | PaintImage(mode: ScalingMode, transform: Transform)

  predicate UsableOutput(o: Output) {
    o.width > 0 && o.height > 0 && o.scale > 0
  }

  /** A logical length in physical pixels: the length times the output's scale factor. */
  function Physical(length: int, scale: int): (p: int)
  {
    length * scale
  }

  /** The arguments and environment under which a solid colour is painted. */
  predicate SolidColorRequested(argc: int, desktopShell: bool, surfaceCreated: bool,
                                imageOrColor: string, modeArg: string)
  {
    argc == 4 && desktopShell && surfaceCreated && modeArg == "solid_color" && ValidColor(imageOrColor)
  }

  /** The arguments and environment under which the image argument is loaded as a file. */
  predicate ImageRequested(argc: int, desktopShell: bool, surfaceCreated: bool,
                           imageOrColor: string, modeArg: string)
  {
    argc == 4 && desktopShell && surfaceCreated
    && !SolidColorRequested(argc, desktopShell, surfaceCreated, imageOrColor, modeArg)
  }

  /**
   * The checks of start-up in the program's order: argument count,
   * desktop-shell support, surface creation (for the output the index
   * selects), then a valid solid colour; anything else is treated as an
   * image path, loaded, and only then is the mode parsed.
   * The output index is not range-checked by the program, so a caller that
   * gets past the first two checks must supply one in range.
   */
  function Decide(argc: int, desktopShell: bool, outputs: seq<Output>, desiredOutput: int,
                  surfaceCreated: bool, imageOrColor: string, modeArg: string,
                  image: ImageLoad): (r: Outcome)
    requires argc == 4 && desktopShell ==>
      0 <= desiredOutput < |outputs| && UsableOutput(outputs[desiredOutput])
    requires image.Loaded? ==> image.width > 0 && image.height > 0
    ensures r == Abort(WrongArgumentCount) <==> argc != 4
    ensures r.PaintSolidColor? <==>
      SolidColorRequested(argc, desktopShell, surfaceCreated, imageOrColor, modeArg)
    ensures r.PaintSolidColor? ==> r.color == imageOrColor
    ensures r == Abort(NoDesktopShell) <==> argc == 4 && !desktopShell
    ensures r == Abort(SurfaceSetupFailed) <==> argc == 4 && desktopShell && !surfaceCreated
    ensures r == Abort(ImageLoadFailed) <==>
      ImageRequested(argc, desktopShell, surfaceCreated, imageOrColor, modeArg) && image.LoadFailed?
    ensures r == Abort(UnsupportedMode(modeArg)) <==>
      ImageRequested(argc, desktopShell, surfaceCreated, imageOrColor, modeArg)
      && image.Loaded? && ParseScalingMode(modeArg).None?
    ensures r.Abort? && r.reason.UnsupportedMode? ==> r.reason.mode == modeArg
    ensures r.PaintImage? <==>
      ImageRequested(argc, desktopShell, surfaceCreated, imageOrColor, modeArg)
      && image.Loaded? && ParseScalingMode(modeArg).Some?
    ensures r.PaintImage? ==> ModeName(r.mode) == modeArg
  {
    if argc != 4 then Abort(WrongArgumentCount)
    else if !desktopShell then Abort(NoDesktopShell)
    else
      var output := outputs[desiredOutput];
      if !surfaceCreated then Abort(SurfaceSetupFailed)
      else if modeArg == "solid_color" && ValidColor(imageOrColor) then PaintSolidColor(imageOrColor)
      else if image.LoadFailed? then Abort(ImageLoadFailed)
      else
        match ParseScalingMode(modeArg)
        case None => Abort(UnsupportedMode(modeArg))
        case Some(mode) =>
          PaintImage(mode, Compute(Physical(output.width, output.scale) as real,
                                   Physical(output.height, output.scale) as real,
                                   image.width as real, image.height as real, mode))
  }

  /**
   * A painted image honours its mode's promise over the output's physical
   * size, and is the only transform that does.
   */
  lemma DecidedImageMeetsMode(argc: int, desktopShell: bool, outputs: seq<Output>, desiredOutput: int,
                              surfaceCreated: bool, imageOrColor: string, modeArg: string,
                              image: ImageLoad, t: Transform)
    requires argc == 4 && desktopShell ==>
      0 <= desiredOutput < |outputs| && UsableOutput(outputs[desiredOutput])
    requires image.Loaded? ==> image.width > 0 && image.height > 0
    requires Decide(argc, desktopShell, outputs, desiredOutput, surfaceCreated,
                    imageOrColor, modeArg, image).PaintImage?
    ensures var r := Decide(argc, desktopShell, outputs, desiredOutput, surfaceCreated,
                            imageOrColor, modeArg, image);
      var o := outputs[desiredOutput];
      var tw, th := Physical(o.width, o.scale) as real, Physical(o.height, o.scale) as real;
      var iw, ih := image.width as real, image.height as real;
      Meets(r.mode, r.transform, tw, th, iw, ih)
      && (Meets(r.mode, t, tw, th, iw, ih) ==> t == r.transform)
  {
    var r := Decide(argc, desktopShell, outputs, desiredOutput, surfaceCreated,
                    imageOrColor, modeArg, image);
    var o := outputs[desiredOutput];
    var tw, th := Physical(o.width, o.scale) as real, Physical(o.height, o.scale) as real;
    var iw, ih := image.width as real, image.height as real;
    ComputeMeets(tw, th, iw, ih, r.mode);
    if Meets(r.mode, t, tw, th, iw, ih) {
      MeetsOnlyCompute(tw, th, iw, ih, r.mode, t);
    }
  }

  /**
   * `solid_color` with a malformed colour is not rejected as a colour: the
   * colour string is taken for an image path, and if that loads, the mode
   * check then refuses `solid_color`.
   */
  lemma InvalidSolidColorFallsThrough(outputs: seq<Output>, desiredOutput: int,
                                      imageOrColor: string, image: ImageLoad)
    requires 0 <= desiredOutput < |outputs| && UsableOutput(outputs[desiredOutput])
    requires image.Loaded? ==> image.width > 0 && image.height > 0
    requires !ValidColor(imageOrColor)
    ensures Decide(4, true, outputs, desiredOutput, true, imageOrColor, "solid_color", image)
      == if image.LoadFailed? then Abort(ImageLoadFailed) else Abort(UnsupportedMode("solid_color"))
  {
    SolidColorIsNotAScalingMode();
  }

  /**
   * An unknown mode never reaches the paint switch: start-up aborts, and
   * once the environment checks pass it aborts on the image load if that
   * fails, or else on the mode.
   */
  lemma UnknownModeNeverPaints(argc: int, desktopShell: bool, outputs: seq<Output>, desiredOutput: int,
                               surfaceCreated: bool, imageOrColor: string, modeArg: string,
                               image: ImageLoad)
    requires argc == 4 && desktopShell ==>
      0 <= desiredOutput < |outputs| && UsableOutput(outputs[desiredOutput])
    requires image.Loaded? ==> image.width > 0 && image.height > 0
    requires modeArg != "solid_color" && ParseScalingMode(modeArg).None?
    ensures var r := Decide(argc, desktopShell, outputs, desiredOutput, surfaceCreated,
                            imageOrColor, modeArg, image);
      r.Abort?
      && (argc == 4 && desktopShell && surfaceCreated ==>
            r.reason == if image.LoadFailed? then ImageLoadFailed else UnsupportedMode(modeArg))
  {
  }

  // ---- the list of background surfaces ----

  /**
   * A background window: its logical size and scale, and whether it can be
   * drawn on this frame (the window library's prerender succeeded and gave
   * a drawing context).
   */
  datatype Window = Window(width: int, height: int, scale: int, drawable: bool)

  /** One paint: which surface of the list, and the transform it was painted with. */
  datatype Frame = Frame(surface: nat, transform: Transform)

  /** The positions below `n` of the windows that can be drawn on, in list order. */
  ghost function DrawableIndices(ws: seq<Window>, n: nat): seq<nat>
    requires n <= |ws|
  {
    if n == 0 then []
    else DrawableIndices(ws, n - 1) + (if ws[n - 1].drawable then [n - 1] else [])
  }

  /** Exactly the drawable windows below `n` are listed, each once, in increasing order. */
  lemma {:induction false} DrawableIndicesExact(ws: seq<Window>, n: nat)
    requires n <= |ws|
    ensures forall i: nat :: i in DrawableIndices(ws, n) <==> i < n && ws[i].drawable
    ensures forall j, k :: 0 <= j < k < |DrawableIndices(ws, n)| ==>
      DrawableIndices(ws, n)[j] < DrawableIndices(ws, n)[k]
  {
    if n > 0 {
      DrawableIndicesExact(ws, n - 1);
      var d := DrawableIndices(ws, n - 1);
      assert forall j :: 0 <= j < |d| ==> d[j] < n - 1 by {
        forall j | 0 <= j < |d| ensures d[j] < n - 1 {
          assert d[j] in d;
        }
      }
    }
  }

  /** The program's surface list: every window it has made a background. */
  class Surfaces {
    var items: seq<Window>

    constructor ()
      ensures items == []
    {
      items := [];
    }

    /** `list_add`: the new window goes to the end. */
    method Add(w: Window)
      modifies this
      ensures items == old(items) + [w]
    {
      items := items + [w];
    }

    /**
     * The paint pass: every drawable surface, in list order, gets the image
     * under the one transform computed from the target size; the others are
     * skipped.
     */
    method PaintAll(tw: real, th: real, iw: real, ih: real, mode: ScalingMode)
      returns (frames: seq<Frame>)
      requires Positive(tw, th, iw, ih)
      ensures |frames| == |DrawableIndices(items, |items|)|
      ensures forall k :: 0 <= k < |frames| ==>
        frames[k] == Frame(DrawableIndices(items, |items|)[k], Compute(tw, th, iw, ih, mode))
    {
      frames := [];
      var i := 0;
      while i < |items|
        invariant 0 <= i <= |items|
        invariant |frames| == |DrawableIndices(items, i)|
        invariant forall k :: 0 <= k < |frames| ==>
          frames[k] == Frame(DrawableIndices(items, i)[k], Compute(tw, th, iw, ih, mode))
      {
        if items[i].drawable {
          frames := frames + [Frame(i, Compute(tw, th, iw, ih, mode))];
        }
        i := i + 1;
      }
    }
  }

  /** Each surface is painted at most once, and exactly the drawable ones are. */
  lemma PaintedExactlyDrawable(ws: seq<Window>, frames: seq<Frame>, t: Transform)
    requires |frames| == |DrawableIndices(ws, |ws|)|
    requires forall k :: 0 <= k < |frames| ==> frames[k] == Frame(DrawableIndices(ws, |ws|)[k], t)
    ensures forall i :: 0 <= i < |ws| ==> (ws[i].drawable <==> exists k :: 0 <= k < |frames| && frames[k].surface == i)
    ensures forall j, k :: 0 <= j < k < |frames| ==> frames[j].surface < frames[k].surface
  {
    var d := DrawableIndices(ws, |ws|);
    DrawableIndicesExact(ws, |ws|);
    forall i | 0 <= i < |ws|
      ensures ws[i].drawable <==> exists k :: 0 <= k < |frames| && frames[k].surface == i
    {
      if ws[i].drawable {
        assert i in d;
        var k :| 0 <= k < |d| && d[k] == i;
        assert frames[k].surface == i;
      }
    }
  }

  /**
   * Start-up as the program runs it: the selected output's window is made
   * a background and added to the surface list; on an image outcome the
   * paint pass covers the list with the target size of that window.
   * `drawable` is whether the new window can be drawn on when painted.
   */
  method Run(argc: int, desktopShell: bool, outputs: seq<Output>, desiredOutput: int,
             surfaceCreated: bool, drawable: bool, imageOrColor: string, modeArg: string,
             image: ImageLoad)
    returns (outcome: Outcome, frames: seq<Frame>)
    requires argc == 4 && desktopShell ==>
      0 <= desiredOutput < |outputs| && UsableOutput(outputs[desiredOutput])
    requires image.Loaded? ==> image.width > 0 && image.height > 0
    ensures outcome == Decide(argc, desktopShell, outputs, desiredOutput, surfaceCreated,
                              imageOrColor, modeArg, image)
    ensures frames == if outcome.PaintImage? && drawable then [Frame(0, outcome.transform)] else []
  {
    outcome := Decide(argc, desktopShell, outputs, desiredOutput, surfaceCreated,
                      imageOrColor, modeArg, image);
    frames := [];
    if argc != 4 || !desktopShell || !surfaceCreated {
      return;
    }
    var output := outputs[desiredOutput];
    var window := Window(output.width, output.height, output.scale, drawable);
    var surfaces := new Surfaces();
    surfaces.Add(window);
    if outcome.PaintImage? {
      var tw := Physical(window.width, window.scale);
      var th := Physical(window.height, window.scale);
      frames := surfaces.PaintAll(tw as real, th as real, image.width as real,
                                    image.height as real, outcome.mode);
      assert DrawableIndices(surfaces.items, 1) == if drawable then [0] else [];
    }
  }
}
