/** The part of the browser's 2D canvas the annotation step uses, kept as
    the list of drawing commands it has received. Each command records the
    style that was in effect when it was issued; pixels are not modelled. */
module Canvas2D {

  /** A text width as `measureText(...).width` reports it. */
  type Width = w: real | w >= 0.0

  /** A decoded image: where it came from and its pixel size. */
  datatype Picture = Picture(source: string, width: nat, height: nat)

  datatype Command =
    | DrawImage(image: Picture, dx: real, dy: real)
    | StrokeRect(x: real, y: real, w: real, h: real, style: string, lineWidth: real)
    | FillRect(x: real, y: real, w: real, h: real, style: string)
    | FillText(text: string, x: real, y: real, style: string, font: string)

  /** What `toDataURL` encodes: the bitmap's size and what was drawn on it. */
  datatype Snapshot = Snapshot(width: nat, height: nat, commands: seq<Command>)

  /** The context state a fresh or resized canvas starts from. */
  const DefaultStyle := "#000000"
  const DefaultFont := "10px sans-serif"
  const DefaultLineWidth := 1.0

  class Canvas {
    var width: nat
    var height: nat
    var strokeStyle: string
    var fillStyle: string
    var lineWidth: real
    var font: string
    /** Everything drawn since the bitmap was last cleared, in order. */
    var commands: seq<Command>
    /** Whether `getContext('2d')` gives a context. */
    const has2d: bool
    /** The browser's text metrics: the width of a text in a font. */
    const metrics: (string, string) -> Width

    ghost predicate HasDefaultState()
      reads this
    {
      strokeStyle == DefaultStyle && fillStyle == DefaultStyle &&
      lineWidth == DefaultLineWidth && font == DefaultFont
    }

    /** A new canvas element: 300 by 150 pixels, blank. */
    constructor (has2d: bool, metrics: (string, string) -> Width)
      ensures this.has2d == has2d && this.metrics == metrics
      ensures width == 300 && height == 150
      ensures HasDefaultState() && commands == []
    {
      this.has2d := has2d;
      this.metrics := metrics;
      width, height := 300, 150;
      strokeStyle, fillStyle := DefaultStyle, DefaultStyle;
      lineWidth, font := DefaultLineWidth, DefaultFont;
      commands := [];
    }

    /** Assigning `canvas.width` and `canvas.height`: the bitmap is cleared
        and the context state goes back to its defaults. */
    method Resize(w: nat, h: nat)
      modifies this
      ensures width == w && height == h
      ensures HasDefaultState() && commands == []
    {
      width, height := w, h;
      strokeStyle, fillStyle := DefaultStyle, DefaultStyle;
      lineWidth, font := DefaultLineWidth, DefaultFont;
      commands := [];
    }

    method DrawImageAt(image: Picture, dx: real, dy: real)
      modifies this`commands
      ensures commands == old(commands) + [DrawImage(image, dx, dy)]
    {
      commands := commands + [DrawImage(image, dx, dy)];
    }

    /** Outlines a rectangle with the current stroke style and line width. */
    method StrokeRectAt(x: real, y: real, w: real, h: real)
      modifies this`commands
      ensures commands == old(commands) + [StrokeRect(x, y, w, h, strokeStyle, lineWidth)]
    {
      commands := commands + [StrokeRect(x, y, w, h, strokeStyle, lineWidth)];
    }

    /** Fills a rectangle with the current fill style. */
    method FillRectAt(x: real, y: real, w: real, h: real)
      modifies this`commands
      ensures commands == old(commands) + [FillRect(x, y, w, h, fillStyle)]
    {
      commands := commands + [FillRect(x, y, w, h, fillStyle)];
    }

    /** Draws text with the current fill style and font. */
    method FillTextAt(text: string, x: real, y: real)
      modifies this`commands
      ensures commands == old(commands) + [FillText(text, x, y, fillStyle, font)]
    {
      commands := commands + [FillText(text, x, y, fillStyle, font)];
    }

    /** `measureText(text).width` in the current font. */
    function MeasureText(text: string): (w: Width)
      reads this
      ensures w == metrics(font, text)
    {
      metrics(font, text)
    }

    /** `toDataURL()`: the current bitmap. */
    function ToDataURL(): (s: Snapshot)
      reads this
      ensures s.width == width && s.height == height && s.commands == commands
    {
      Snapshot(width, height, commands)
    }
  }
}
