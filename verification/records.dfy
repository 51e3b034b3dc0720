/** The records of a subtitle document as the layout engine sees them: the
    script settings, a style, one event as read from the file, and the
    line, word, syllable and character records the engine produces. Every
    geometric field is a `real`; every time is an integer in milliseconds. */
module Records {
  import opened Common

  /** Widths and heights reported by the font provider are never negative. */
  type Length = r: real | r >= 0.0

  datatype Size = Size(width: Length, height: Length)

  datatype Metrics = Metrics(ascent: real, descent: real, internalLeading: real, externalLeading: real)

  /** `[Script Info]` settings. */
  datatype Meta = Meta(
    wrapStyle: int,
    scaledBorderAndShadow: bool,
    playResX: int,
    playResY: int,
    audio: string,
    video: string)

  /** One entry of `[V4+ Styles]`; colours and alphas stay in their textual form. */
  datatype Style = Style(
    fontname: string,
    fontsize: real,
    color1: string, alpha1: string,
    color2: string, alpha2: string,
    color3: string, alpha3: string,
    color4: string, alpha4: string,
    bold: bool,
    italic: bool,
    underline: bool,
    strikeout: bool,
    scaleX: real,
    scaleY: real,
    spacing: real,
    angle: real,
    borderStyle: bool,
    outline: real,
    shadow: real,
    alignment: int,
    marginL: int,
    marginR: int,
    marginV: int,
    encoding: int)

  /** The font provider: text extents and the four font metrics of a style.
      Both are pure in their arguments. */
  datatype Font = Font(extents: (Style, string) -> Size, metrics: Style -> Metrics)

  /** A `Dialogue:` or `Comment:` event as parsed from `[Events]`. */
  datatype Event = Event(
    i: nat,
    comment: bool,
    layer: int,
    startTime: int,
    endTime: int,
    style: string,
    actor: string,
    marginL: int,
    marginR: int,
    marginV: int,
    effect: string,
    rawText: string)

  /** The six edges and centres of a placed element and its anchor point (x, y). */
  datatype Box = Box(x: real, y: real, left: real, center: real, right: real, top: real, middle: real, bottom: real)

  /** An element with the extents the font reported for its text, and its
      box when the script has a positive play resolution. */
  datatype Placed<T> = Placed(item: T, size: Size, pos: Option<Box>)

  datatype Word = Word(
    i: nat,
    startTime: int,
    endTime: int,
    duration: int,
    text: string,
    prespace: nat,
    postspace: nat)

  datatype Syllable = Syllable(
    i: nat,
    wordI: nat,
    startTime: int,
    endTime: int,
    duration: int,
    text: string,
    tags: string,
    inlineFx: string,
    prespace: nat,
    postspace: nat)

  /** `sylI` and `sylCharI` are present exactly when the characters were cut
      from syllables. */
  datatype Char = Char(
    i: nat,
    wordI: nat,
    sylI: Option<nat>,
    sylCharI: Option<nat>,
    startTime: int,
    endTime: int,
    duration: int,
    text: char)

  /** What the engine adds to a line whose style resolved. */
  datatype LineLayout = LineLayout(
    size: Size,
    metrics: Metrics,
    pos: Option<Box>,
    words: seq<Placed<Word>>,
    syls: seq<Placed<Syllable>>,
    chars: seq<Placed<Char>>)

  datatype Line = Line(
    i: nat,
    comment: bool,
    layer: int,
    startTime: int,
    endTime: int,
    duration: int,
    leadin: real,
    leadout: real,
    style: string,
    styleref: Option<Style>,
    actor: string,
    marginL: int,
    marginR: int,
    marginV: int,
    effect: string,
    rawText: string,
    text: string,
    layout: Option<LineLayout>)
}
