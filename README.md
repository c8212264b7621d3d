# Signal to-do printer bot, modelled in Dafny

The bot answers two chat commands. `!help` replies with one line per
registered command, in registration order. `!todo <text>` prints a to-do
slip on an ESC/POS receipt printer. The slip handler runs these steps in order:

- marks the message read;
- checks the text;
- writes a timestamp line, a bold `TODO: ` label and the body;
- prints every attachment whose file name has an image suffix, resized to a width of 512 dots, each followed by an empty line;
- cuts the paper, closes the printer and reacts with a printer glyph.

The model keeps the handlers' control flow and records every call they make
through the chat transport or the printer, in order, as an `Effect` in a log
field of the handler object:

- `TodoBot.TodoCommand.Handle` is an imperative method over that log. It is
  proved equal to the specification function `TodoRun`, which returns the
  effects and how the call ends: it returns, or raises `IndexError`,
  `DecodeError` or `ResizeError`.
- The attachment loop is a `for` loop. It is proved against `Attachments`, a
  function that runs the loop body `AttachmentStep` over a prefix and stops
  at the first exception.
- The help reply is built by a `+=` loop (`BuildHelp`) proved against
  `HelpText`.
- Python's `str.split()`, `str.lower()`, `s[k:]` and `zip` are modelled in
  `PyStr` and in `TodoBot.Zip`.
- `PurePosixPath.name` and `.suffix` are modelled in `PurePath`.

Files:

- `wrappers.dfy`: `Option`.
- `pystr.dfy`: the string operations.
- `pure_path.dfy`: the final path component and its suffix.
- `todo_bot.dfy`: the effect log, the command classes and the specification functions.
- `todo_properties.dfy`: the properties of the handlers.

Points where the code does not do what one might expect, and which the
model keeps as written:

- The body is `msg[5:]`: the first five characters are dropped, whatever they are. The body therefore keeps the space after the trigger (`TriggerBody`), and leading whitespace moves the cut into the trigger (`LeadingSpaceShiftsCut`).
- The new height is `int(height / width * 512)`, which rounds down (`ScaledHeight`); a height that rounds down to 0 makes the resize raise.
- Text made only of whitespace passes the `if not msg` test, and `msg.split()[0]` then raises `IndexError` (`ReceiptOnlyIff`).
- The suffix test is `Path(name).suffix`: it is case-sensitive and looks only at the last extension of the final component (`ImageNameIff`).

## Model

| member | source | states |
|---|---|---|
| TodoBot.HelpMessage | main.py:31-32 | the help command's message (todo's is main.py:62-63); characterised by `HelpMessageOneLine` |
| TodoBot.HelpLine | main.py:38-39 | one bullet `\t - <message>\n`; characterised by `HelpLinesSnoc` and `HelpLinesSplit` |
| TodoBot.HelpLines | main.py:36-39 | the bullets of all messages, in order; characterised by `HelpLinesSnoc`, `HelpLinesSplit` and `BuildHelp` |
| TodoBot.HelpText | main.py:35-40 | the header then the bullets; characterised by `HelpListing` and `HelpReply` |
| TodoBot.IsImageName | main.py:102-103 | whether an attachment is printed; characterised by `ImageNameIsSuffixMatch` and `ImageNameIff` |
| TodoBot.AttachmentStep | main.py:102-112 | one pass of the loop body; characterised by `StepEffects`, `StepImages` and `DecodeStep` |
| TodoBot.Attachments | main.py:101-112 | the loop, stopping at the first exception; characterised by `AttachmentsUpTo`, `AttachmentsStop`, `AttachmentsExact` and `OtherSuffixesIgnored` |
| TodoBot.Decide | main.py:71-82 | how the text is classified before printing; characterised by `ReceiptOnlyIff`, `AskWhatIff`, `DecideTriggered` and `BodyIsPositional` |
| TodoBot.SlipHeader | main.py:91-97 | the first six printer operations; characterised by `PrinterOpensOnce` |
| TodoBot.Slip | main.py:91-116 | the printing path; characterised by `PrinterClosesOnce`, `PrinterLeftOpen` and `NoAttachmentsSlip` |
| TodoBot.TodoRun | main.py:66-116 | everything one call does and how it ends; characterised by `ReceiptFirst`, `ReceiptOnlyIff`, `AskWhatIff`, `PrintedIff` and `ZipTruncates` |
| PyStr.Split | main.py:74 | `str.split()`; characterised by `SplitJoin`, `SplitFirst`, `SplitTokens` and `SplitSkipsSpace` |
| PurePath.Name | main.py:102 | `PurePosixPath(p).name`; characterised by `NameOfChild` |
| PurePath.Suffix | main.py:102 | `.suffix`; characterised by `SuffixShape` and `SuffixIs` |
| TodoBot.HelpMessages | main.py:31-32 | each registered command contributes its own `help_message()` (help: main.py:31-32, todo: main.py:62-63), one per command, in order |
| TodoBot.HelpLinesSnoc | main.py:38-39 | appending a command adds exactly its `\t - <message>\n` line at the end of the help lines |
| TodoBot.BuildHelp | main.py:36-39 | the `+=` loop yields the header `Available commands:\n` followed by one bullet line per message, in order |
| TodoBot.Bot.Register | main.py:134-135 | registering appends the command at the end of the registry, so help comes before todo |
| TodoBot.HelpCommand.Handle | main.py:35-40 | one reply is sent, holding the help text of every registered command in registration order, and nothing else happens |
| TodoBot.PrinterSettings | main.py:51-52 | a present `device`/`profile` key is used as given; a missing one falls back to `/dev/usb/lp0` / `TM-T88IV` |
| TodoBot.TodoCommand.constructor | main.py:46-60 | the printer settings come from the config, and the printer is set to left alignment and then closed |
| TodoBot.ImageNameIsSuffixMatch | main.py:102-103 | the printed-attachment test is exactly the `match` on `PurePath.Suffix` of the final component against the five alternatives |
| TodoBot.ScaledHeight | main.py:107-108 | the new height is the largest h with h * width <= height * 512, i.e. `int(height / width * 512)` |
| TodoBot.Zip | main.py:101 | `zip` pairs the attachments and the file names index by index and stops at the shorter list |
| TodoBot.AttachmentsUpTo | main.py:101-112 | one more iteration of the loop is the body on the next pair, unless an earlier pair already raised |
| TodoBot.AttachmentsStop | main.py:101-112 | once an iteration raises, later pairs change neither the output nor the exception |
| TodoBot.TodoCommand.PrintAttachment | main.py:102-112 | one iteration: an allowed suffix is decoded (or raises `DecodeError`), resized to 512 wide (or raises `ResizeError` at height 0), printed and followed by an empty line; any other suffix does nothing |
| TodoBot.TodoCommand.PrintAttachments | main.py:101-112 | the loop appends exactly the effects of `Attachments` over the pairs and ends with its exception |
| TodoBot.TodoCommand.PrintImages | main.py:100-112 | the attachment block runs the loop over `zip(attachments, filenames)` only when there are attachments |
| TodoBot.TodoCommand.PrintSlip | main.py:91-116 | open, timestamp, bold on, `TODO: `, bold off, body, the attachment effects; then cut, close and the printer reaction, unless an attachment raised |
| TodoBot.TodoCommand.Handle | main.py:66-116 | the log grows by exactly `TodoRun`'s effects and the call ends as `TodoRun` says |
| PyStr.LeadingSpace | main.py:74 | the count of leading `str.isspace()` characters: all of them are whitespace and the next one is not |
| PyStr.TokenLength | main.py:74 | the length of the leading run of non-whitespace characters |
| PyStr.Lower | main.py:74 | `lower()` keeps the length and lowers each ASCII letter |
| PyStr.SliceFrom | main.py:82 | `msg[5:]` is the text after its first five characters, or empty for shorter text |
| PyStr.RFindSpec | main.py:102 | `rfind` returns the last occurrence, or -1 when there is none |
| PyStr.SplitJoin | main.py:74-77 | `split()` of tokens joined by single spaces gives back those tokens |
| PyStr.SplitSkipsSpace | main.py:74 | leading whitespace does not change `split()` |
| PyStr.SplitTokens | main.py:74 | every piece of `split()` is a non-empty run without whitespace |
| PyStr.SplitFirst | main.py:74 | `split()` is empty exactly for all-whitespace text; otherwise its first token starts after the leading whitespace and ends at the next whitespace |
| PurePath.SuffixShape | main.py:102 | a non-empty suffix is a dot and dot-free characters, and a proper ending of the name |
| PurePath.SuffixIs | main.py:102 | a name has suffix `.ext` exactly when it ends with `.ext` and has at least one character before it |
| PurePath.NameOfChild | main.py:102 | the final component of `dir/name` is `name` |
| TodoProperties.StepEffects | main.py:102-112 | one iteration prints nothing, or a 512-wide image of positive height and then an empty line |
| TodoProperties.AttachmentEffects | main.py:101-112 | the loop prints only 512-wide images of positive height and empty lines |
| TodoProperties.StepImages | main.py:102-111 | an iteration that does not raise prints the resized image exactly when the suffix is allowed |
| TodoProperties.AttachmentImages | main.py:101-111 | when nothing raises, the loop prints one image per allowed, decodable attachment, in order, each at width 512 and the scaled height |
| TodoProperties.BlankLineAfterImage | main.py:111-112 | every printed image is directly followed by an empty line |
| TodoProperties.NoAllowedSuffix | main.py:102-103 | a list with no allowed suffix prints nothing and raises nothing |
| TodoProperties.OtherSuffixesIgnored | main.py:101-103 | in any list, removing an attachment whose suffix is not allowed changes neither what the loop prints nor how it ends |
| TodoProperties.AttachmentsExact | main.py:101-112 | when nothing raises, the loop prints exactly a 512-wide image at the scaled height and an empty line for each allowed, decodable attachment, in order, and nothing else |
| TodoProperties.DecodeStep | main.py:104-106 | an allowed attachment that does not decode raises `DecodeError` in its iteration and prints nothing |
| TodoProperties.DecodeFailureStops | main.py:101-106 | the first undecodable allowed attachment ends the loop with `DecodeError`, and nothing after it is printed |
| TodoProperties.ScaledExample | main.py:107-108 | 1024x768 and 640x480 give a height of 384; 4000x3 gives 0 |
| TodoProperties.AllowedSuffixShape | main.py:103 | every allowed suffix is a dot and 3 or 4 dot-free characters ending in g, f or p |
| TodoProperties.SuffixMatchIff | main.py:102-103 | the `match` accepts a name exactly when it ends with an allowed suffix after at least one other character |
| TodoProperties.ImageNameIff | main.py:102-103 | an attachment is printed exactly when the final component of its file name ends, case-sensitively, with one of `.png .jpg .jpeg .gif .bmp` after at least one other character |
| TodoProperties.ImageInDirectory | main.py:102-103 | `dir/stem.png` (any allowed suffix, any non-empty stem) is printed |
| TodoProperties.NotImageByLastChar | main.py:102-103 | a final component ending in a character other than g, f or p is never printed |
| TodoProperties.UpperCaseNotImage | main.py:102-103 | `.PNG` is not accepted: the comparison is case-sensitive |
| TodoProperties.LastExtensionOnly | main.py:102-103 | `name.png.txt` is not accepted: only the last extension counts |
| TodoProperties.BareSuffixNotImage | main.py:102-103 | a file named only `.png` has no suffix and is not printed |
| TodoProperties.TriggerSpelling | main.py:74 | the trigger test accepts exactly `!` followed by t, o, d, o, each in either case |
| TodoProperties.TriggerIsToken | main.py:74 | `!todo` is one whitespace-free token and is its own lower case |
| TodoProperties.BodyIsPositional | main.py:74-82 | on the printing path the trigger sits after the leading whitespace, whitespace follows it, and the body is the text without its first five characters |
| TodoProperties.BodyFollowsTrigger | main.py:82 | the body is what follows the trigger exactly when the text has no leading whitespace |
| TodoProperties.BodyKeepsSeparator | main.py:77-82 | without leading whitespace the body starts with the whitespace after the trigger and splits into the payload tokens |
| TodoProperties.TriggerTokens | main.py:74-77 | `!todo` followed by space-separated tokens splits into the trigger and those tokens |
| TodoProperties.DecideTriggered | main.py:74-82 | text whose first token is the trigger, with more tokens after it, is printed with body `msg[5:]` |
| TodoProperties.LeadingSpaceShiftsCut | main.py:74-82 | with k <= 5 leading blanks the body keeps the last k characters of the trigger |
| TodoProperties.TriggerBody | main.py:82 | for `!todo` followed by the payload, the body is the payload with the separating space kept |
| TodoProperties.ReceiptFirst | main.py:67 | every call starts with the read receipt and sends it once |
| TodoProperties.ReceiptOnlyIff | main.py:67-75 | only the receipt happens exactly for missing or empty text, all-whitespace text or a first token other than `!todo`; all-whitespace text is the one case that raises `IndexError` |
| TodoProperties.AttachmentErrorsNotIndex | main.py:101-112 | the attachment loop never raises `IndexError` |
| TodoProperties.AskWhatIff | main.py:77-80 | the receipt, the alert reaction and `What todo?` are all that happens exactly when the trigger has no payload |
| TodoProperties.PrinterOpensOnce | main.py:91-97 | on the printing path the receipt is followed by opening the printer, the body is the sixth printer operation, and the printer is not opened again |
| TodoProperties.PrinterClosesOnce | main.py:91-116 | a slip that prints in full ends with cut, close and the printer reaction; everything in between is a printer operation, and close happens once |
| TodoProperties.PrinterLeftOpen | main.py:91-112 | when an attachment raises, only printer operations follow the receipt, with no cut and no close |
| TodoProperties.PrintedIff | main.py:114-116 | the printer reaction is sent exactly when the text asks for a slip and no attachment raises |
| TodoProperties.ZipTruncates | main.py:101 | attachments or file names beyond the shorter list have no effect |
| TodoProperties.NoAttachmentsSlip | main.py:91-116 | without attachments, a slip is exactly receipt, open, timestamp, bold on, `TODO: `, bold off, body, cut, close, printer reaction |
| TodoProperties.HelpListing | main.py:36-39 | read line by line, the help reply is the header, one bullet per message in order, and nothing more |
| TodoProperties.HelpLinesSplit | main.py:38-39 | the bullet lines split at newlines into one bullet per message |
| TodoProperties.HelpMessageOneLine | main.py:31-32 | no help message contains a newline (help: main.py:31-32, todo: main.py:62-63) |
| TodoProperties.HelpReply | main.py:35-40 | for any registry, the reply lists each registered command on its own line, in registration order |
| TodoProperties.RegisteredHelp | main.py:133-135 | for the bot as `main()` registers it, the reply lines are the header, the help line, the todo line |

## Left out

- Chat transport and printer I/O. `bot.receipt`, `bot.react`, `ctx.send` and the `printer.*` calls are recorded as effects. Their failures, `await` and concurrency are not modelled.
- The timestamp: `datetime.fromtimestamp` and `strftime` (main.py:88-89) depend on the clock's time zone. The formatted label is an input (`stamp`).
- Decoding and resizing: base64 decoding, the temporary file and `Image.open` (main.py:104-106) are modelled by `Option<Raster>`. `None` is data that is not an image. LANCZOS resampling and the pixels are not modelled; an image effect records only its width and height.
- TodoBot.ScaledHeight: computes `floor(height * 512 / width)` on integers instead of the double-precision `int(height / width * 512)`. The two agree whenever the height is below about 2^43 pixels. When `height * 512 / width` is an integer N, the quotient `height / width` is exactly N/512 and multiplying by 512 is exact. Otherwise the rounded quotient cannot reach the next multiple of 1/512. Larger images are not modelled.
- TodoBot.ImageNameIsSuffixMatch: `IsImageName` inlines `PurePath.Suffix`. This lemma proves the inlined test is the same as the `match`.
- Empty attachment list: `base64_attachments` being `None` rather than an empty list is not modelled. Both skip the loop.
- PyStr.Lower: lowers ASCII letters only. That is enough for the comparison with `!todo`, because no other character lowers to a letter of `!todo`.
- Logging: the debug log and the shortened preview of the body (main.py:70, 84-85) reach neither the user nor the printer.
- `main()`: loading `config.json`, the log file and `bot.start()` (main.py:119-138) are not modelled. Only the registration order (main.py:134-135) is.
- The `signalbot` runtime: routing, the `@triggered` decorator and the runtime's handling of exceptions raised by a handler are not part of this model. `TodoCommand.handle` is modelled as called for every message, because its decorator is commented out (main.py:65).
- The `escpos` `Network` connection object (main.py:53) is not part of this model. Its settings are kept as `device` and `profile`.
