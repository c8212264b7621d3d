/**
 What the two handlers promise, stated about the specification functions
 that `TodoCommand.Handle` and `HelpCommand.Handle` are proved to follow.
 */
module TodoProperties {
  import opened Wrappers
  import opened PyStr
  import PurePath
  import opened TodoBot

  // ---------------------------------------------------------------------
  // The attachment loop
  // ---------------------------------------------------------------------

  /** One pass of the loop body prints nothing, or prints the resized image
      and a blank line and goes on. */
  lemma StepEffects(a: Option<Raster>, name: string)
    ensures var s := AttachmentStep(a, name);
      s.effects == [] ||
      (s.failure == None && a.Some? && IsImageName(name) && ScaledHeight(a.value) >= 1 &&
       s.effects == [Image(PrintWidth, ScaledHeight(a.value)), TextLn("")])
  {
  }

  /** Each effect in `es` is a 512-pixel-wide image of positive height or an
      empty line. */
  predicate ImagesAndBlanks(es: seq<Effect>) {
    forall i :: 0 <= i < |es| ==>
      (es[i].Image? && es[i].width == PrintWidth && es[i].height >= 1) || es[i] == TextLn("")
  }

  /** The loop emits nothing but 512-pixel-wide images of positive height
      and blank lines. */
  lemma {:induction false} AttachmentEffects(pairs: seq<(Option<Raster>, string)>)
    ensures ImagesAndBlanks(Attachments(pairs).effects)
    decreases |pairs|
  {
    if pairs != [] {
      var init := pairs[..|pairs| - 1];
      AttachmentEffects(init);
      StepEffects(pairs[|pairs| - 1].0, pairs[|pairs| - 1].1);
      if Attachments(init).failure == None {
        var step := AttachmentStep(pairs[|pairs| - 1].0, pairs[|pairs| - 1].1);
        assert Attachments(pairs).effects == Attachments(init).effects + step.effects;
      } else {
        assert Attachments(pairs) == Attachments(init);
      }
    }
  }

  /** The image effects of a log, in order. */
  function ImagesOf(es: seq<Effect>): seq<Effect> {
    if es == [] then []
    else ImagesOf(es[..|es| - 1]) + (if es[|es| - 1].Image? then [es[|es| - 1]] else [])
  }

  lemma {:induction false} ImagesOfAppend(a: seq<Effect>, b: seq<Effect>)
    ensures ImagesOf(a + b) == ImagesOf(a) + ImagesOf(b)
    decreases |b|
  {
    if b == [] {
      assert a + b == a;
    } else {
      var b' := b[..|b| - 1];
      assert (a + b)[..|a + b| - 1] == a + b';
      ImagesOfAppend(a, b');
    }
  }

  /** The decoded attachments whose file name passes the allow-list. */
  function PrintableRasters(pairs: seq<(Option<Raster>, string)>): seq<Raster> {
    if pairs == [] then []
    else
      var (a, name) := pairs[|pairs| - 1];
      PrintableRasters(pairs[..|pairs| - 1]) + (if IsImageName(name) && a.Some? then [a.value] else [])
  }

  /** Each raster printed at width 512 with its height scaled to match. */
  function Resized(rs: seq<Raster>): seq<Effect> {
    if rs == [] then [] else Resized(rs[..|rs| - 1]) + [Image(PrintWidth, ScaledHeight(rs[|rs| - 1]))]
  }

  /** The images one pass of the loop body prints when it does not raise. */
  lemma StepImages(a: Option<Raster>, name: string)
    requires AttachmentStep(a, name).failure == None
    ensures IsImageName(name) ==> a.Some?
    ensures ImagesOf(AttachmentStep(a, name).effects) ==
      if IsImageName(name) then [Image(PrintWidth, ScaledHeight(a.value))] else []
  {
    if IsImageName(name) {
      var image := Image(PrintWidth, ScaledHeight(a.value));
      assert AttachmentStep(a, name).effects == [image, TextLn("")];
      ImagesOfPair(image, TextLn(""));
    }
  }

  lemma ImagesOfPair(image: Effect, other: Effect)
    requires image.Image? && !other.Image?
    ensures ImagesOf([image, other]) == [image]
  {
    var es := [image, other];
    assert es[..|es| - 1] == [image];
    assert [image][..0] == [];
    assert ImagesOf([image]) == ImagesOf([]) + [image];
    assert ImagesOf(es) == ImagesOf([image]) + [];
  }

  /** When no attachment raises, the loop prints exactly one image per
      attachment whose suffix is allowed, in order, each resized to a width of
      512 and a height of `int(height / width * 512)`. */
  lemma {:induction false} AttachmentImages(pairs: seq<(Option<Raster>, string)>)
    requires Attachments(pairs).failure == None
    ensures ImagesOf(Attachments(pairs).effects) == Resized(PrintableRasters(pairs))
    decreases |pairs|
  {
    if pairs != [] {
      var init := pairs[..|pairs| - 1];
      var (a, name) := pairs[|pairs| - 1];
      var before := Attachments(init);
      assert before.failure == None;
      AttachmentImages(init);
      var step := AttachmentStep(a, name);
      StepImages(a, name);
      assert Attachments(pairs).effects == before.effects + step.effects;
      ImagesOfAppend(before.effects, step.effects);
      var rs := PrintableRasters(init);
      if IsImageName(name) {
        assert PrintableRasters(pairs) == rs + [a.value];
        assert (rs + [a.value])[..|rs|] == rs;
      } else {
        assert PrintableRasters(pairs) == rs;
      }
    }
  }

  /** Every image in `es` is directly followed by an empty line. */
  predicate BlankAfterImages(es: seq<Effect>) {
    forall i :: 0 <= i < |es| && es[i].Image? ==> i + 1 < |es| && es[i + 1] == TextLn("")
  }

  /** Every image the loop prints is followed by an empty line. */
  lemma {:induction false} BlankLineAfterImage(pairs: seq<(Option<Raster>, string)>)
    ensures BlankAfterImages(Attachments(pairs).effects)
    decreases |pairs|
  {
    if pairs != [] {
      var init := pairs[..|pairs| - 1];
      BlankLineAfterImage(init);
      var before := Attachments(init).effects;
      if Attachments(init).failure == None {
        var step := AttachmentStep(pairs[|pairs| - 1].0, pairs[|pairs| - 1].1);
        StepEffects(pairs[|pairs| - 1].0, pairs[|pairs| - 1].1);
        var es := before + step.effects;
        assert Attachments(pairs).effects == es;
        forall i | 0 <= i < |es| && es[i].Image?
          ensures i + 1 < |es| && es[i + 1] == TextLn("")
        {
          if i < |before| {
            assert before[i].Image?;
          } else {
            assert es[i] == step.effects[i - |before|];
          }
        }
      } else {
        assert Attachments(pairs) == Attachments(init);
      }
    }
  }

  /** Attachments whose suffix is not allowed print nothing and raise nothing. */
  lemma {:induction false} NoAllowedSuffix(pairs: seq<(Option<Raster>, string)>)
    requires forall i :: 0 <= i < |pairs| ==> !IsImageName(pairs[i].1)
    ensures Attachments(pairs) == Run([], None)
    decreases |pairs|
  {
    if pairs != [] {
      NoAllowedSuffix(pairs[..|pairs| - 1]);
    }
  }

  /** Anywhere in the list, an attachment whose suffix is not allowed can be
      removed without changing what the loop prints or how it ends. */
  lemma {:induction false} OtherSuffixesIgnored(p: seq<(Option<Raster>, string)>, x: (Option<Raster>, string),
                                                q: seq<(Option<Raster>, string)>)
    requires !IsImageName(x.1)
    ensures Attachments(p + [x] + q) == Attachments(p + q)
    decreases |q|
  {
    if q == [] {
      assert p + [x] + q == p + [x];
      assert (p + [x])[..|p|] == p;
      assert p + q == p;
      assert Attachments(p).effects + [] == Attachments(p).effects;
    } else {
      var q' := q[..|q| - 1];
      assert (p + [x] + q)[..|p + [x] + q| - 1] == p + [x] + q';
      assert (p + [x] + q)[|p + [x] + q| - 1] == q[|q| - 1];
      assert (p + q)[..|p + q| - 1] == p + q';
      assert (p + q)[|p + q| - 1] == q[|q| - 1];
      OtherSuffixesIgnored(p, x, q');
    }
  }

  /** Each raster printed at width 512 and its scaled height, each followed
      by an empty line. */
  function PrintedImages(rs: seq<Raster>): seq<Effect> {
    if rs == [] then []
    else PrintedImages(rs[..|rs| - 1]) + [Image(PrintWidth, ScaledHeight(rs[|rs| - 1])), TextLn("")]
  }

  /** When no attachment raises, the loop prints exactly an image and an
      empty line for each attachment whose suffix is allowed, in order, and
      nothing else. */
  lemma {:induction false} AttachmentsExact(pairs: seq<(Option<Raster>, string)>)
    requires Attachments(pairs).failure == None
    ensures Attachments(pairs).effects == PrintedImages(PrintableRasters(pairs))
    decreases |pairs|
  {
    if pairs != [] {
      var init := pairs[..|pairs| - 1];
      var (a, name) := pairs[|pairs| - 1];
      assert Attachments(init).failure == None;
      AttachmentsExact(init);
      var rs := PrintableRasters(init);
      if IsImageName(name) {
        assert a.Some?;
        assert PrintableRasters(pairs) == rs + [a.value];
        assert (rs + [a.value])[..|rs|] == rs;
      } else {
        assert PrintableRasters(pairs) == rs;
      }
    }
  }

  /** The first attachment with an allowed suffix that cannot be decoded
      stops the loop: nothing after it is printed. */
  lemma DecodeFailureStops(pairs: seq<(Option<Raster>, string)>, i: nat)
    requires i < |pairs| && IsImageName(pairs[i].1) && pairs[i].0 == None
    requires Attachments(pairs[..i]).failure == None
    ensures Attachments(pairs) == Run(Attachments(pairs[..i]).effects, Some(DecodeError))
  {
    DecodeStep(pairs, i);
    AttachmentsStop(pairs, i + 1);
  }

  lemma DecodeStep(pairs: seq<(Option<Raster>, string)>, i: nat)
    requires i < |pairs| && IsImageName(pairs[i].1) && pairs[i].0 == None
    requires Attachments(pairs[..i]).failure == None
    ensures Attachments(pairs[..i + 1]) == Run(Attachments(pairs[..i]).effects, Some(DecodeError))
  {
    AttachmentsUpTo(pairs, i);
    assert Attachments(pairs[..i]).effects + [] == Attachments(pairs[..i]).effects;
  }

  /** `int(height / width * 512)` keeps the aspect ratio: 1024x768 gives 384. */
  lemma ScaledExample()
    ensures ScaledHeight(Raster(1024, 768)) == 384
    ensures ScaledHeight(Raster(640, 480)) == 384
    ensures ScaledHeight(Raster(4000, 3)) == 0
  {
  }

  // ---------------------------------------------------------------------
  // File names
  // ---------------------------------------------------------------------

  /** Every allowed suffix is a dot and three or four dot-free characters,
      the last of which is 'g', 'f' or 'p'. */
  lemma AllowedSuffixShape(e: string)
    requires IsImageSuffix(e)
    ensures 4 <= |e| <= 5 && e[0] == '.' && '.' !in e[1..] && e[|e| - 1] in "gfp"
  {
  }

  /** The `match` on the suffix accepts a name exactly when the name ends
      with an allowed suffix and has at least one character before it. */
  lemma {:induction false} SuffixMatchIff(n: string)
    ensures IsImageSuffix(PurePath.Suffix(n)) <==>
      exists e :: IsImageSuffix(e) && |n| > |e| && n[|n| - |e|..] == e
  {
    var r := PurePath.Suffix(n);
    if IsImageSuffix(r) {
      PurePath.SuffixShape(n);
      assert |n| > |r| && n[|n| - |r|..] == r;
    }
    forall e | IsImageSuffix(e) && |n| > |e| && n[|n| - |e|..] == e
      ensures r == e
    {
      AllowedSuffixShape(e);
      PurePath.SuffixIs(n, e);
    }
  }

  /** An attachment is printed exactly when the final component of its file
      name ends, case-sensitively, with one of .png .jpg .jpeg .gif .bmp and
      has at least one character before that ending. */
  lemma ImageNameIff(filename: string)
    ensures var n := PurePath.Name(filename);
      IsImageName(filename) <==>
        exists e :: IsImageSuffix(e) && |n| > |e| && n[|n| - |e|..] == e
  {
    ImageNameIsSuffixMatch(filename);
    SuffixMatchIff(PurePath.Name(filename));
  }

  /** A file whose name ends in an allowed suffix after a non-empty stem is
      printed, whatever directory it is in and whatever dots the stem has. */
  lemma ImageInDirectory(dir: string, stem: string, e: string)
    requires stem != "" && '/' !in stem && IsImageSuffix(e)
    ensures IsImageName(dir + "/" + (stem + e))
  {
    var n := stem + e;
    PurePath.NameOfChild(dir, n);
    ImageNameIff(dir + "/" + n);
    assert n[|n| - |e|..] == e;
  }

  /** A file name whose last character no allowed suffix ends with is not
      printed. */
  lemma NotImageByLastChar(dir: string, n: string)
    requires n != "" && n != "." && '/' !in n
    requires n[|n| - 1] !in "gfp"
    ensures !IsImageName(dir + "/" + n)
  {
    PurePath.NameOfChild(dir, n);
    ImageNameIff(dir + "/" + n);
    forall e | IsImageSuffix(e) && |n| > |e|
      ensures n[|n| - |e|..] != e
    {
      AllowedSuffixShape(e);
      assert n[|n| - |e|..][|e| - 1] == n[|n| - 1];
    }
  }

  /** The comparison is case-sensitive. */
  lemma UpperCaseNotImage(dir: string, stem: string)
    requires '/' !in stem
    ensures !IsImageName(dir + "/" + (stem + ".PNG"))
  {
    NotImageByLastChar(dir, stem + ".PNG");
  }

  /** Only the last extension counts. */
  lemma LastExtensionOnly(dir: string, stem: string)
    requires '/' !in stem
    ensures !IsImageName(dir + "/" + (stem + ".png.txt"))
  {
    NotImageByLastChar(dir, stem + ".png.txt");
  }

  /** A name that is only an allowed suffix, such as ".png", has no suffix. */
  lemma BareSuffixNotImage(dir: string, e: string)
    requires IsImageSuffix(e)
    ensures !IsImageName(dir + "/" + e)
  {
    AllowedSuffixShape(e);
    PurePath.NameOfChild(dir, e);
    forall j | 0 < j < |e|
      ensures e[j] != '.'
    {
      assert e[j] == e[1..][j - 1];
    }
    PurePath.RFindIsLast(e, '.', 0);
  }

  // ---------------------------------------------------------------------
  // The first token and the body
  // ---------------------------------------------------------------------

  /** The trigger check is a case-insensitive match of the whole first token. */
  lemma TriggerSpelling(t: string)
    ensures Lower(t) == Trigger <==>
      |t| == 5 && t[0] == '!' && t[1] in "tT" && t[2] in "oO" && t[3] in "dD" && t[4] in "oO"
  {
    if |t| == 5 {
      assert Lower(t) == [LowerChar(t[0]), LowerChar(t[1]), LowerChar(t[2]), LowerChar(t[3]), LowerChar(t[4])];
    }
  }

  /** On the printing path the text starts, after its leading whitespace,
      with a five-character trigger, whitespace and a payload token, and the
      body is the text without its first five characters, whatever they are. */
  lemma {:induction false} BodyIsPositional(t: string)
    requires Decide(Some(t)).Print?
    ensures |t| > LeadingSpace(t) + 5
    ensures Lower(t[LeadingSpace(t)..LeadingSpace(t) + 5]) == Trigger
    ensures IsSpace(t[LeadingSpace(t) + 5])
    ensures Decide(Some(t)).body == t[5..]
    ensures Split(t[LeadingSpace(t) + 5..]) == Split(t)[1..]
  {
    var tokens := Split(t);
    assert Decide(Some(t)) == Print(SliceFrom(t, BodyOffset));
    SplitFirst(t);
    var k := LeadingSpace(t);
    assert k < |t|;
    var n := TokenLength(t[k..]);
    assert tokens[0] == t[k..k + n] && tokens[1..] == Split(t[k + n..]);
    assert n == 5 by {
      assert |Lower(tokens[0])| == |tokens[0]| == n;
    }
    assert t[k + n..] != [];
    assert IsSpace(t[k..][n]);
  }

  /** The body is the text that follows the trigger exactly when the
      message has no leading whitespace. */
  lemma BodyFollowsTrigger(t: string)
    requires Decide(Some(t)).Print?
    ensures Decide(Some(t)).body == SliceFrom(t, LeadingSpace(t) + 5) <==> LeadingSpace(t) == 0
  {
    BodyIsSlice(t);
    var k := LeadingSpace(t);
    assert SliceFrom(t, k + 5) == t[k + 5..];
    SameSuffixIff(t, 5, k + 5);
  }

  /** On the printing path the trigger ends before the end of the text, and
      the body is the text from its sixth character. */
  lemma BodyIsSlice(t: string)
    requires Decide(Some(t)).Print?
    ensures |t| > LeadingSpace(t) + 5 && Decide(Some(t)).body == t[5..]
  {
    BodyIsPositional(t);
  }

  lemma SameSuffixIff<T>(s: seq<T>, i: nat, j: nat)
    requires i <= |s| && j <= |s|
    ensures s[i..] == s[j..] <==> i == j
  {
    if s[i..] == s[j..] {
      assert |s[i..]| == |s[j..]|;
    }
  }

  /** Without leading whitespace the body starts with the whitespace that
      followed the trigger, and `split()` of the body gives the payload
      tokens. */
  lemma BodyKeepsSeparator(t: string)
    requires Decide(Some(t)).Print? && LeadingSpace(t) == 0
    ensures var body := Decide(Some(t)).body;
      |body| > 0 && IsSpace(body[0]) && Split(body) == Split(t)[1..]
  {
    BodyIsPositional(t);
  }

  /** The text of the trigger followed by the payload tokens, each separated
      by one space, reads as the trigger and then those tokens. */
  lemma TriggerTokens(ts: seq<string>)
    requires ts != [] && forall i :: 0 <= i < |ts| ==> IsToken(ts[i])
    ensures Split(Trigger + (" " + Join(ts))) == [Trigger] + ts
  {
    Concat3(Trigger, " ", Join(ts));
    var all := [Trigger] + ts;
    assert all[1..] == ts;
    assert Join(all) == Trigger + " " + Join(ts);
    TriggerIsToken();
    forall i | 0 <= i < |all|
      ensures IsToken(all[i])
    {
      if i > 0 {
        assert all[i] == ts[i - 1];
      }
    }
    SplitJoin(all);
  }

  /** The trigger is a single lower-case token. */
  lemma TriggerIsToken()
    ensures IsToken(Trigger) && Lower(Trigger) == Trigger
  {
    forall i | 0 <= i < |Trigger|
      ensures !IsSpace(Trigger[i]) && LowerChar(Trigger[i]) == Trigger[i]
    {
    }
  }

  /** Leading whitespace makes the positional cut land inside the trigger:
      with |w| leading blanks the body keeps the trigger's last |w|
      characters. */
  lemma LeadingSpaceShiftsCut(w: string, ts: seq<string>)
    requires |w| <= 5 && forall i :: 0 <= i < |w| ==> IsSpace(w[i])
    requires ts != [] && forall i :: 0 <= i < |ts| ==> IsToken(ts[i])
    ensures Decide(Some(w + (Trigger + (" " + Join(ts))))) ==
      Print(Trigger[5 - |w|..] + (" " + Join(ts)))
  {
    var rest := Trigger + (" " + Join(ts));
    var t := w + rest;
    TriggerTokens(ts);
    SplitSkipsSpace(w, rest);
    DecideTriggered(t, ts);
    DropAcross(w, rest, 5);
    DropWithin(Trigger, " " + Join(ts), 5 - |w|);
  }

  lemma DropAcross<T>(a: seq<T>, b: seq<T>, k: nat)
    requires |a| <= k <= |a| + |b|
    ensures (a + b)[k..] == b[k - |a|..]
  {
  }

  lemma DropWithin<T>(a: seq<T>, b: seq<T>, k: nat)
    requires k <= |a|
    ensures (a + b)[k..] == a[k..] + b
  {
  }

  /** Text whose first token is the trigger and that has more tokens is
      printed, without its first five characters. */
  lemma DecideTriggered(t: string, ts: seq<string>)
    requires ts != [] && Split(t) == [Trigger] + ts
    ensures Decide(Some(t)) == Print(SliceFrom(t, BodyOffset))
  {
    TriggerIsToken();
  }

  // ---------------------------------------------------------------------
  // The handler
  // ---------------------------------------------------------------------

  /** Every call starts with the read receipt, and sends it only once. */
  lemma ReceiptFirst(m: Message, stamp: string)
    ensures var es := TodoRun(m, stamp).effects;
      |es| >= 1 && es[0] == ReadReceipt && forall i :: 1 <= i < |es| ==> es[i] != ReadReceipt
  {
    AttachmentEffects(Zip(m.attachments, m.filenames));
  }

  /** Nothing beyond the receipt happens exactly when the text is absent or
      empty, is all whitespace, or has a first token other than !todo in any
      case; all whitespace is the one case that raises (IndexError). */
  lemma ReceiptOnlyIff(m: Message, stamp: string)
    ensures TodoRun(m, stamp).effects == [ReadReceipt] <==>
      m.text.None? || m.text.value == "" || Split(m.text.value) == [] ||
      Lower(Split(m.text.value)[0]) != Trigger
    ensures TodoRun(m, stamp).outcome == Raised(IndexError) <==>
      m.text.Some? && m.text.value != "" && Split(m.text.value) == []
  {
    AttachmentErrorsNotIndex(Zip(m.attachments, m.filenames));
  }

  lemma {:induction false} AttachmentErrorsNotIndex(pairs: seq<(Option<Raster>, string)>)
    ensures Attachments(pairs).failure != Some(IndexError)
    decreases |pairs|
  {
    if pairs != [] {
      AttachmentErrorsNotIndex(pairs[..|pairs| - 1]);
    }
  }

  /** A lone trigger gets exactly the alert reaction and the "What todo?"
      reply, and the printer is not touched. */
  lemma AskWhatIff(m: Message, stamp: string)
    ensures TodoRun(m, stamp).effects == [ReadReceipt, React(Alert), Send(WhatTodo)] <==>
      m.text.Some? && Split(m.text.value) != [] &&
      Lower(Split(m.text.value)[0]) == Trigger && |Split(m.text.value)| < 2
  {
  }

  /** On the printing path the receipt is followed by opening the printer,
      and the printer is not opened again; the sixth printer operation
      prints the body. */
  lemma PrinterOpensOnce(m: Message, stamp: string)
    requires Decide(m.text).Print?
    ensures var es := TodoRun(m, stamp).effects;
      |es| >= 7 && es[0] == ReadReceipt && es[1] == Open &&
      es[6] == TextLn(Decide(m.text).body) &&
      forall i :: 1 < i < |es| ==> es[i] != Open
  {
    var images := Attachments(Zip(m.attachments, m.filenames));
    PrintPath(m, stamp);
    AttachmentEffects(Zip(m.attachments, m.filenames));
    OpenedOnce(stamp, Decide(m.text).body, images.effects,
               if images.failure.Some? then [] else [Cut, Close, React(Printed)]);
  }

  /** A slip that prints in full ends with cut, close and the printer
      reaction; between the receipt and the reaction only printer operations
      happen, and the printer is closed once. */
  lemma PrinterClosesOnce(m: Message, stamp: string)
    requires Decide(m.text).Print? && TodoRun(m, stamp).outcome == Returned
    ensures var es := TodoRun(m, stamp).effects;
      |es| >= 3 && es[|es| - 3..] == [Cut, Close, React(Printed)] &&
      forall i :: 0 < i < |es| - 1 ==> IsPrinterOp(es[i]) && (es[i] == Close <==> i == |es| - 2)
  {
    var images := Attachments(Zip(m.attachments, m.filenames));
    PrintPath(m, stamp);
    AttachmentEffects(Zip(m.attachments, m.filenames));
    ClosedOnce(stamp, Decide(m.text).body, images.effects);
  }

  /** An attachment that raises leaves the printer open: no cut, no close and
      no reaction follow the receipt. */
  lemma PrinterLeftOpen(m: Message, stamp: string)
    requires Decide(m.text).Print? && TodoRun(m, stamp).outcome != Returned
    ensures var es := TodoRun(m, stamp).effects;
      forall i :: 0 < i < |es| ==> IsPrinterOp(es[i]) && es[i] != Cut && es[i] != Close
  {
    var images := Attachments(Zip(m.attachments, m.filenames));
    PrintPath(m, stamp);
    AttachmentEffects(Zip(m.attachments, m.filenames));
    LeftOpen(stamp, Decide(m.text).body, images.effects);
  }

  /** On the printing path the handler does the receipt, the slip header and
      the attachment loop's output, then cut, close and the reaction unless
      the loop raised. */
  lemma PrintPath(m: Message, stamp: string)
    requires Decide(m.text).Print?
    ensures var images := Attachments(Zip(m.attachments, m.filenames));
      TodoRun(m, stamp).effects ==
        [ReadReceipt] + SlipHeader(stamp, Decide(m.text).body) + images.effects +
        (if images.failure.Some? then [] else [Cut, Close, React(Printed)])
  {
    var images := Attachments(Zip(m.attachments, m.filenames));
    var header := SlipHeader(stamp, Decide(m.text).body);
    if images.failure.Some? {
      Concat3([ReadReceipt], header, images.effects);
      assert images.effects + [] == images.effects;
    } else {
      Concat4([ReadReceipt], header, images.effects, [Cut, Close, React(Printed)]);
    }
  }

  lemma OpenedOnce(stamp: string, body: string, mid: seq<Effect>, tail: seq<Effect>)
    requires ImagesAndBlanks(mid)
    requires tail == [] || tail == [Cut, Close, React(Printed)]
    ensures var es := [ReadReceipt] + SlipHeader(stamp, body) + mid + tail;
      |es| >= 7 && es[0] == ReadReceipt && es[1] == Open && es[6] == TextLn(body) &&
      forall i :: 1 < i < |es| ==> es[i] != Open
  {
    var head := [ReadReceipt] + SlipHeader(stamp, body);
    var es := head + mid + tail;
    forall i | 1 < i < |es|
      ensures es[i] != Open
    {
      if i < |head| {
        assert es[i] == head[i];
      } else if i < |head| + |mid| {
        assert es[i] == mid[i - |head|];
      } else {
        assert es[i] == tail[i - |head| - |mid|];
      }
    }
  }

  lemma ClosedOnce(stamp: string, body: string, mid: seq<Effect>)
    requires ImagesAndBlanks(mid)
    ensures var es := [ReadReceipt] + SlipHeader(stamp, body) + mid + [Cut, Close, React(Printed)];
      |es| >= 3 && es[|es| - 3..] == [Cut, Close, React(Printed)] &&
      forall i :: 0 < i < |es| - 1 ==> IsPrinterOp(es[i]) && (es[i] == Close <==> i == |es| - 2)
  {
    var head := [ReadReceipt] + SlipHeader(stamp, body);
    var tail := [Cut, Close, React(Printed)];
    var es := head + mid + tail;
    assert es[|es| - 3..] == tail;
    forall i | 0 < i < |es| - 1
      ensures IsPrinterOp(es[i]) && (es[i] == Close <==> i == |es| - 2)
    {
      if i < |head| {
        assert es[i] == head[i];
      } else if i < |head| + |mid| {
        assert es[i] == mid[i - |head|];
      } else {
        assert es[i] == tail[i - |head| - |mid|];
      }
    }
  }

  lemma LeftOpen(stamp: string, body: string, mid: seq<Effect>)
    requires ImagesAndBlanks(mid)
    ensures var es := [ReadReceipt] + SlipHeader(stamp, body) + mid + [];
      forall i :: 0 < i < |es| ==> IsPrinterOp(es[i]) && es[i] != Cut && es[i] != Close
  {
    var head := [ReadReceipt] + SlipHeader(stamp, body);
    var es := head + mid + [];
    forall i | 0 < i < |es|
      ensures IsPrinterOp(es[i]) && es[i] != Cut && es[i] != Close
    {
      if i < |head| {
        assert es[i] == head[i];
      } else {
        assert es[i] == mid[i - |head|];
      }
    }
  }

  /** The printer reaction is sent exactly when the text asks for a slip and
      no attachment raises. */
  lemma PrintedIff(m: Message, stamp: string)
    ensures React(Printed) in TodoRun(m, stamp).effects <==>
      Decide(m.text).Print? && Attachments(Zip(m.attachments, m.filenames)).failure == None
  {
    var es := TodoRun(m, stamp).effects;
    if Decide(m.text).Print? {
      if TodoRun(m, stamp).outcome == Returned {
        PrinterClosesOnce(m, stamp);
      } else {
        PrinterLeftOpen(m, stamp);
      }
      if React(Printed) in es {
        var i :| 0 <= i < |es| && es[i] == React(Printed);
      }
    }
  }

  /** Only the first min(#attachments, #file names) attachments matter. */
  lemma ZipTruncates(m: Message, stamp: string)
    ensures var k := if |m.attachments| <= |m.filenames| then |m.attachments| else |m.filenames|;
      TodoRun(m, stamp) == TodoRun(Message(m.text, m.attachments[..k], m.filenames[..k]), stamp)
  {
    var k := if |m.attachments| <= |m.filenames| then |m.attachments| else |m.filenames|;
    assert Zip(m.attachments, m.filenames) == Zip(m.attachments[..k], m.filenames[..k]);
  }

  /** A message without attachments whose text asks for a slip gets the
      slip header, then cut, close and the printer reaction. */
  lemma NoAttachmentsSlip(m: Message, stamp: string)
    requires Decide(m.text).Print? && m.attachments == []
    ensures TodoRun(m, stamp) ==
      Job([ReadReceipt, Open, TextLn(stamp), SetBold(true), TextLn(TodoLabel), SetBold(false),
           TextLn(Decide(m.text).body), Cut, Close, React(Printed)], Returned)
  {
    assert Zip(m.attachments, m.filenames) == [];
    var body := Decide(m.text).body;
    assert Slip(stamp, body, []).effects == SlipHeader(stamp, body) + [Cut, Close, React(Printed)];
    SlipDisplay(stamp, body);
  }

  /** Text that starts with the trigger prints everything after it, the
      separating space included. */
  lemma TriggerBody(ts: seq<string>)
    requires ts != [] && forall i :: 0 <= i < |ts| ==> IsToken(ts[i])
    ensures Decide(Some(Trigger + (" " + Join(ts)))) == Print(" " + Join(ts))
  {
    LeadingSpaceShiftsCut("", ts);
    assert "" + (Trigger + (" " + Join(ts))) == Trigger + (" " + Join(ts));
    assert Trigger[5..] + (" " + Join(ts)) == " " + Join(ts);
  }

  lemma SlipDisplay(stamp: string, body: string)
    ensures [ReadReceipt] + SlipHeader(stamp, body) + [Cut, Close, React(Printed)] ==
      [ReadReceipt, Open, TextLn(stamp), SetBold(true), TextLn(TodoLabel), SetBold(false),
       TextLn(body), Cut, Close, React(Printed)]
  {
  }

  // ---------------------------------------------------------------------
  // Help
  // ---------------------------------------------------------------------

  /** The bullet line of each help message, without its newline. */
  function Bullets(ms: seq<string>): (bs: seq<string>)
    ensures |bs| == |ms|
    ensures forall i :: 0 <= i < |ms| ==> bs[i] == "\t - " + ms[i]
  {
    seq(|ms|, i requires 0 <= i < |ms| => "\t - " + ms[i])
  }

  /** Read line by line, the help reply is the header, then one bullet per
      registered command in registration order, then nothing more; this needs
      only that no help message spans several lines. */
  lemma HelpListing(ms: seq<string>)
    requires forall i :: 0 <= i < |ms| ==> '\n' !in ms[i]
    ensures SplitOn(HelpText(ms), '\n') == ["Available commands:"] + Bullets(ms) + [""]
  {
    assert HelpText(ms) == "Available commands:" + ['\n'] + HelpLines(ms);
    SplitOnCons("Available commands:", '\n', HelpLines(ms));
    HelpLinesSplit(ms);
  }

  lemma {:induction false} HelpLinesSplit(ms: seq<string>)
    requires forall i :: 0 <= i < |ms| ==> '\n' !in ms[i]
    ensures SplitOn(HelpLines(ms), '\n') == Bullets(ms) + [""]
  {
    if ms == [] {
    } else {
      var b := "\t - " + ms[0];
      assert '\n' !in b by {
        assert '\n' !in ms[0];
      }
      assert HelpLines(ms) == b + ['\n'] + HelpLines(ms[1..]);
      SplitOnCons(b, '\n', HelpLines(ms[1..]));
      HelpLinesSplit(ms[1..]);
      assert Bullets(ms) == [b] + Bullets(ms[1..]);
    }
  }

  /** No command's help message spans several lines. */
  lemma HelpMessageOneLine(c: CommandKind)
    ensures '\n' !in HelpMessage(c)
  {
  }

  /** Whatever commands are registered, the reply lists each of them on a
      line of its own, in registration order. */
  lemma HelpReply(cs: seq<CommandKind>)
    ensures SplitOn(HelpText(HelpMessages(cs)), '\n') ==
      ["Available commands:"] + Bullets(HelpMessages(cs)) + [""]
  {
    var ms := HelpMessages(cs);
    forall i | 0 <= i < |ms|
      ensures '\n' !in ms[i]
    {
      HelpMessageOneLine(cs[i]);
    }
    HelpListing(ms);
  }

  /** The reply for the bot as main() registers it: help first, then todo. */
  lemma RegisteredHelp()
    ensures SplitOn(HelpText(HelpMessages([Help, Todo])), '\n') ==
      ["Available commands:", "\t - " + HelpMessage(Help), "\t - " + HelpMessage(Todo), ""]
  {
    HelpReply([Help, Todo]);
    TwoBullets(HelpMessages([Help, Todo]));
  }

  lemma TwoBullets(ms: seq<string>)
    requires |ms| == 2
    ensures ["Available commands:"] + Bullets(ms) + [""] ==
      ["Available commands:", "\t - " + ms[0], "\t - " + ms[1], ""]
  {
  }
}
