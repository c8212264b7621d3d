/**
 The two command handlers of the Signal bot in main.py.

 `!help` replies with one line per registered command. `!todo` prints a
 to-do slip on a receipt printer: the handler marks the message read,
 validates the text, writes a timestamp line, a bold "TODO: " label, the
 body and any attached images, cuts the paper and reacts with a printer
 glyph. Everything the handlers do through the chat transport and through
 the printer is recorded, in order, as an `Effect` in a log field; the
 formatted timestamp and the decoded size of each attachment are inputs.
 */
module TodoBot {
  import opened Wrappers
  import opened PyStr
  import PurePath

  /** One call made through the chat transport or the printer. */
  datatype Effect =
    | ReadReceipt             // bot.receipt(message, "read")
    | React(glyph: string)    // bot.react(message, glyph)
    | Send(text: string)      // ctx.send(text)
    | Open                    // printer.open()
    | SetAlign(mode: string)  // printer.set(align=mode)
    | SetBold(on: bool)       // printer.set(bold=on)
    | TextLn(line: string)    // printer.textln(line)
    | Image(width: int, height: int)  // printer.image(resized image)
    | Cut                     // printer.cut()
    | Close                   // printer.close()

  /** The effects that go to the printer rather than to the chat. */
  predicate IsPrinterOp(e: Effect) {
    !(e.ReadReceipt? || e.React? || e.Send?)
  }

  const Trigger: string := "!todo"
  /** The number of characters `msg[5:]` drops from the text. */
  const BodyOffset: nat := 5
  const Alert: string := "\U{2757}"       // heavy exclamation mark
  const Printed: string := "\U{1F5A8}"    // printer
  const WhatTodo: string := "What todo?"
  const TodoLabel: string := "TODO: "
  const PrintWidth: int := 512

  // ---------------------------------------------------------------------
  // Commands and the help text
  // ---------------------------------------------------------------------

  datatype CommandKind = Help | Todo

  /** The `help_message()` of each command. */
  function HelpMessage(c: CommandKind): string {
    match c
    case Help => "help: \U{1F198} Show info about commands."
    case Todo => "todo: \U{1F5A8}\U{FE0F} Print out a to-do slip."
  }

  function HelpMessages(cs: seq<CommandKind>): (ms: seq<string>)
    ensures |ms| == |cs|
    ensures forall i :: 0 <= i < |cs| ==> ms[i] == HelpMessage(cs[i])
  {
    seq(|cs|, i requires 0 <= i < |cs| => HelpMessage(cs[i]))
  }

  const HelpHeader: string := "Available commands:\n"

  function HelpLine(m: string): string {
    "\t - " + m + "\n"
  }

  function HelpLines(ms: seq<string>): string {
    if ms == [] then "" else HelpLine(ms[0]) + HelpLines(ms[1..])
  }

  /** The reply to `!help` for commands whose help messages are `ms`. */
  function HelpText(ms: seq<string>): string {
    HelpHeader + HelpLines(ms)
  }

  /** Adding a command to the end of the registry adds its line at the end. */
  lemma {:induction false} HelpLinesSnoc(ms: seq<string>, m: string)
    ensures HelpLines(ms + [m]) == HelpLines(ms) + HelpLine(m)
  {
    if ms == [] {
      assert [m][1..] == [];
    } else {
      assert (ms + [m])[1..] == ms[1..] + [m];
      HelpLinesSnoc(ms[1..], m);
    }
  }

  /** The `+=` loop of `HelpCommand.handle` over the registered commands. */
  method BuildHelp(messages: seq<string>) returns (help: string)
    ensures help == HelpText(messages)
  {
    help := HelpHeader;
    for i := 0 to |messages|
      invariant help == HelpHeader + HelpLines(messages[..i])
    {
      assert messages[..i + 1] == messages[..i] + [messages[i]];
      HelpLinesSnoc(messages[..i], messages[i]);
      help := help + HelpLine(messages[i]);
    }
    assert messages[..|messages|] == messages;
  }

  /** The registry of the bot runtime: commands in registration order. */
  class Bot {
    var commands: seq<CommandKind>

    constructor ()
      ensures commands == []
    {
      commands := [];
    }

    method Register(c: CommandKind)
      modifies this
      ensures commands == old(commands) + [c]
    {
      commands := commands + [c];
    }
  }

  class HelpCommand {
    const bot: Bot
    var log: seq<Effect>

    constructor (bot: Bot)
      ensures this.bot == bot && log == []
    {
      this.bot := bot;
      log := [];
    }

    /** `!help`: one reply listing every registered command. */
    method Handle()
      modifies this`log
      ensures log == old(log) + [Send(HelpText(HelpMessages(bot.commands)))]
    {
      var help := BuildHelp(HelpMessages(bot.commands));
      log := log + [Send(help)];
    }
  }

  // ---------------------------------------------------------------------
  // Printer configuration
  // ---------------------------------------------------------------------

  const DefaultDevice: string := "/dev/usb/lp0"
  const DefaultProfile: string := "TM-T88IV"

  /** `config.get("device", ...)` and `config.get("profile", ...)`: a key that
      is present is used as given, a missing one falls back to its default. */
  function PrinterSettings(config: map<string, string>): (r: (string, string))
    ensures "device" in config ==> r.0 == config["device"]
    ensures "device" !in config ==> r.0 == DefaultDevice
    ensures "profile" in config ==> r.1 == config["profile"]
    ensures "profile" !in config ==> r.1 == DefaultProfile
  {
    (if "device" in config then config["device"] else DefaultDevice,
     if "profile" in config then config["profile"] else DefaultProfile)
  }

  // ---------------------------------------------------------------------
  // The to-do handler: inputs and specification
  // ---------------------------------------------------------------------

  type Pixels = n: int | n >= 1 witness 1

  /** The size of an attachment once decoded as an image. */
  datatype Raster = Raster(width: Pixels, height: Pixels)

  /** An incoming message: its text (absent or present), its attachments as
      they decode (`None` when the data is not an image Pillow can open) and
      the local file names of the attachments, a list of its own. */
  datatype Message = Message(text: Option<string>, attachments: seq<Option<Raster>>, filenames: seq<string>)

  /** The exceptions that can escape the handler. */
  datatype Error =
    | IndexError    // `msg.split()[0]` on text that is all whitespace
    | DecodeError   // an attachment with an image suffix that does not decode
    | ResizeError   // Pillow refuses to resize to a height of 0

  datatype Outcome = Returned | Raised(error: Error)

  /** Python's `zip`: pairs up the two lists and stops at the shorter one. */
  function Zip<A, B>(xs: seq<A>, ys: seq<B>): (r: seq<(A, B)>)
    ensures |r| == if |xs| <= |ys| then |xs| else |ys|
    ensures forall i :: 0 <= i < |r| ==> r[i] == (xs[i], ys[i])
  {
    if xs == [] || ys == [] then [] else [(xs[0], ys[0])] + Zip(xs[1..], ys[1..])
  }

  /** The alternatives of the `match` on the suffix that print the image. */
  predicate IsImageSuffix(suffix: string) {
    suffix == ".png" || suffix == ".jpg" || suffix == ".jpeg" || suffix == ".gif" || suffix == ".bmp"
  }

  /** Whether the attachment's `Path(name).suffix` is one of those
      alternatives: the final component has a dot that is neither its first
      nor its last character, and the text from its last dot is allowed.
      `ImageNameIsSuffixMatch` states that this is the `match` on
      `PurePath.Suffix`. */
  predicate IsImageName(filename: string) {
    var name := PurePath.Name(filename);
    var i := RFind(name, '.');
    0 < i < |name| - 1 && IsImageSuffix(name[i..])
  }

  lemma ImageNameIsSuffixMatch(filename: string)
    ensures IsImageName(filename) <==> IsImageSuffix(PurePath.Suffix(PurePath.Name(filename)))
  {
  }

  /** `int(height / width * 512)`: the height that keeps the aspect ratio at
      a width of 512, rounded down. */
  function ScaledHeight(r: Raster): (h: nat)
    ensures h * r.width <= r.height * PrintWidth < (h + 1) * r.width
  {
    r.height * PrintWidth / r.width
  }

  /** What the loop body does for one (attachment, file name) pair. */
  datatype Run = Run(effects: seq<Effect>, failure: Option<Error>)

  function AttachmentStep(a: Option<Raster>, name: string): Run {
    if !IsImageName(name) then Run([], None)
    else match a
      case None => Run([], Some(DecodeError))
      case Some(r) =>
        if ScaledHeight(r) == 0 then Run([], Some(ResizeError))
        else Run([Image(PrintWidth, ScaledHeight(r)), TextLn("")], None)
  }

  /** The attachment loop over `pairs`, stopping at the first exception. */
  function Attachments(pairs: seq<(Option<Raster>, string)>): Run
    decreases |pairs|
  {
    if pairs == [] then Run([], None)
    else
      var before := Attachments(pairs[..|pairs| - 1]);
      if before.failure.Some? then before
      else
        var step := AttachmentStep(pairs[|pairs| - 1].0, pairs[|pairs| - 1].1);
        Run(before.effects + step.effects, step.failure)
  }

  /** How the handler classifies the text before printing anything. */
  datatype Decision =
    | Ignore          // no text, or a first token other than !todo
    | NoFirstToken    // text of whitespace only: `split()[0]` raises
    | AskWhat         // !todo with nothing after it
    | Print(body: string)

  function Decide(text: Option<string>): Decision {
    if text.None? || text.value == "" then Ignore
    else
      var tokens := Split(text.value);
      if tokens == [] then NoFirstToken
      else if Lower(tokens[0]) != Trigger then Ignore
      else if |tokens| < 2 then AskWhat
      else Print(SliceFrom(text.value, BodyOffset))
  }

  /** The slip's first six printer operations. */
  function SlipHeader(stamp: string, body: string): seq<Effect> {
    [Open, TextLn(stamp), SetBold(true), TextLn(TodoLabel), SetBold(false), TextLn(body)]
  }

  /** Everything one call of the handler does, and how it ends. */
  datatype Job = Job(effects: seq<Effect>, outcome: Outcome)

  /** Printing the slip: header, attachments, then cut, close and the
      printer reaction, unless an attachment raises first. */
  function Slip(stamp: string, body: string, pairs: seq<(Option<Raster>, string)>): Job {
    var images := Attachments(pairs);
    if images.failure.Some? then Job(SlipHeader(stamp, body) + images.effects, Raised(images.failure.value))
    else Job(SlipHeader(stamp, body) + images.effects + [Cut, Close, React(Printed)], Returned)
  }

  function TodoRun(m: Message, stamp: string): Job {
    match Decide(m.text)
    case Ignore => Job([ReadReceipt], Returned)
    case NoFirstToken => Job([ReadReceipt], Raised(IndexError))
    case AskWhat => Job([ReadReceipt, React(Alert), Send(WhatTodo)], Returned)
    case Print(body) =>
      var slip := Slip(stamp, body, Zip(m.attachments, m.filenames));
      Job([ReadReceipt] + slip.effects, slip.outcome)
  }

  /** The loop over the first i + 1 pairs is the loop over the first i, then
      the body on pair i unless the loop has already raised. */
  lemma AttachmentsUpTo(pairs: seq<(Option<Raster>, string)>, i: nat)
    requires i < |pairs|
    ensures var before := Attachments(pairs[..i]);
      var step := AttachmentStep(pairs[i].0, pairs[i].1);
      Attachments(pairs[..i + 1]) ==
        if before.failure.Some? then before else Run(before.effects + step.effects, step.failure)
  {
    assert pairs[..i + 1][..i] == pairs[..i];
  }

  /** Once the loop has raised, later pairs change nothing. */
  lemma {:induction false} AttachmentsStop(pairs: seq<(Option<Raster>, string)>, i: nat)
    requires i <= |pairs|
    requires Attachments(pairs[..i]).failure.Some?
    ensures Attachments(pairs) == Attachments(pairs[..i])
    decreases |pairs| - i
  {
    if i < |pairs| {
      var j := |pairs| - 1;
      assert pairs[..j][..i] == pairs[..i];
      AttachmentsStop(pairs[..j], i);
      assert Attachments(pairs[..j]).failure.Some?;
    } else {
      assert pairs[..i] == pairs;
    }
  }

  // ---------------------------------------------------------------------
  // The to-do handler
  // ---------------------------------------------------------------------

  lemma Concat3<T>(a: seq<T>, b: seq<T>, c: seq<T>)
    ensures a + b + c == a + (b + c)
  {
  }

  lemma Concat4<T>(a: seq<T>, b: seq<T>, c: seq<T>, d: seq<T>)
    ensures a + b + c + d == a + (b + c + d)
  {
  }

  class TodoCommand {
    const device: string
    const profile: string
    var log: seq<Effect>

    /** Reads the printer settings, sets left alignment and closes the
        connection again until the first slip. */
    constructor (config: map<string, string>)
      ensures (device, profile) == PrinterSettings(config)
      ensures log == [SetAlign("left"), Close]
    {
      device := PrinterSettings(config).0;
      profile := PrinterSettings(config).1;
      log := [SetAlign("left")];
      log := log + [Close];
    }

    /** One pass of the loop body: an attachment whose suffix is allowed is
        decoded, resized to a width of 512 and printed, followed by an empty
        line; decoding or resizing may raise instead. */
    method PrintAttachment(a: Option<Raster>, name: string) returns (failure: Option<Error>)
      modifies this`log
      ensures log == old(log) + AttachmentStep(a, name).effects
      ensures failure == AttachmentStep(a, name).failure
    {
      failure := None;
      if IsImageName(name) {
        match a
        case None =>
          failure := Some(DecodeError);
        case Some(r) =>
          var newHeight := r.height * PrintWidth / r.width;
          if newHeight == 0 {
            failure := Some(ResizeError);
          } else {
            log := log + [Image(PrintWidth, newHeight)];
            log := log + [TextLn("")];
          }
      }
    }

    /** The loop over the attachments, which stops at the first exception. */
    method PrintAttachments(pairs: seq<(Option<Raster>, string)>) returns (failure: Option<Error>)
      modifies this`log
      ensures log == old(log) + Attachments(pairs).effects
      ensures failure == Attachments(pairs).failure
    {
      for i := 0 to |pairs|
        invariant Attachments(pairs[..i]).failure == None
        invariant log == old(log) + Attachments(pairs[..i]).effects
      {
        failure := PrintAttachment(pairs[i].0, pairs[i].1);
        AttachmentsUpTo(pairs, i);
        if failure.Some? {
          AttachmentsStop(pairs, i + 1);
          return;
        }
      }
      assert pairs[..|pairs|] == pairs;
      failure := None;
    }

    /** The attachments of a message, printed only when it has any. */
    method PrintImages(m: Message) returns (failure: Option<Error>)
      modifies this`log
      ensures log == old(log) + Attachments(Zip(m.attachments, m.filenames)).effects
      ensures failure == Attachments(Zip(m.attachments, m.filenames)).failure
    {
      var pairs := Zip(m.attachments, m.filenames);
      if m.attachments != [] {
        failure := PrintAttachments(pairs);
      } else {
        assert pairs == [];
        failure := None;
      }
    }

    /** The printing half of the handler, from opening the printer to the
        final reaction. */
    method PrintSlip(m: Message, stamp: string, body: string) returns (outcome: Outcome)
      modifies this`log
      ensures log == old(log) + Slip(stamp, body, Zip(m.attachments, m.filenames)).effects
      ensures outcome == Slip(stamp, body, Zip(m.attachments, m.filenames)).outcome
    {
      ghost var pairs := Zip(m.attachments, m.filenames);
      ghost var images := Attachments(pairs);
      ghost var before := log;
      log := log + SlipHeader(stamp, body);
      var failure := PrintImages(m);
      Concat3(before, SlipHeader(stamp, body), images.effects);
      if failure.Some? {
        return Raised(failure.value);
      }
      log := log + [Cut, Close, React(Printed)];
      Concat4(before, SlipHeader(stamp, body), images.effects, [Cut, Close, React(Printed)]);
      outcome := Returned;
    }

    /** Handles one incoming message; `stamp` is the formatted timestamp. */
    method Handle(m: Message, stamp: string) returns (outcome: Outcome)
      modifies this`log
      ensures log == old(log) + TodoRun(m, stamp).effects
      ensures outcome == TodoRun(m, stamp).outcome
    {
      ghost var before := log;
      log := log + [ReadReceipt];

      match Decide(m.text)
      case Ignore =>
        outcome := Returned;
      case NoFirstToken =>
        outcome := Raised(IndexError);
      case AskWhat =>
        log := log + [React(Alert)];
        log := log + [Send(WhatTodo)];
        assert log == before + [ReadReceipt, React(Alert), Send(WhatTodo)];
        outcome := Returned;
      case Print(body) =>
        outcome := PrintSlip(m, stamp, body);
        Concat3(before, [ReadReceipt], Slip(stamp, body, Zip(m.attachments, m.filenames)).effects);
    }
  }
}
