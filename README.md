# chatjam, modelled in Dafny

`chatjam.py` is a small pygame chat window. You type a prompt and press
Enter. A worker thread answers it, either from a local rule-based responder,
from the OpenAI chat API, or by searching for an image. The main loop then
drains the answers into the chat history. Each frame, the history is laid out
bottom-up: speaker labels, code blocks, wrapped prose with clickable links,
and images. A click opens a link or enlarges an image.

This project models the deterministic rules inside that program and proves
what they promise. Fonts, the network, the environment and the clock are
inputs. The modules are:

- `Wrappers`, `Seqs`: `Option` and a few generic sequence facts.
- `PyStr`: the Python `str` behaviour the program relies on. This covers
  `isspace`, `strip()`, `strip(c)`, `split(' ')`, `splitlines()`, `lower()`,
  `in`, `repr` and `str(bool)`. Two more are not calls the program makes.
  The whitespace tokens of `str.split()` measure what text the word wrap
  keeps. The first-occurrence search `FindFrom` is how the model finds the
  fences for `re.split`, and what `in` is proved against.
- `Quote`: `urllib.parse.quote`, meaning UTF-8 encoding followed by percent
  escapes.
- `Chat`: the shared data. This is the value a turn holds and the
  `(speaker, text)` turn itself.
- `Responder`:
  - `local_responder`;
  - the guards of `call_openai`;
  - `worker_thread` as a function from what the worker meets to the browser
    page it opens and the one value it queues.
- `Markup`:
  - `re.split` on triple-backtick fences;
  - `re.finditer` for URLs;
  - the greedy word wrap.
- `Layout`: the per-frame layout pass, written two ways. Specification
  functions over a `Frame` (cursor `y`, rows drawn, `rendered_items`), and the
  loops of the source as methods proved equal to them.
- `App`: class `ChatApp`, holding the state `main` updates:
  - `input_text`, `chat`, `use_openai`, `image_modal` and `rendered_items`;
  - the result queue;
  - the running workers.

  Its methods are the click handler, the key handler, the result drain, a
  worker finishing, and a frame's layout.

## Model

| member | source | states |
|---|---|---|
| PyStr.TrimLeft | chatjam.py:49 | the result is a suffix of the input, everything dropped is whitespace, and the result does not start with whitespace |
| PyStr.TrimRight | chatjam.py:49 | the result is a prefix of the input, everything dropped is whitespace, and the result does not end with whitespace |
| PyStr.StripIsSlice | chatjam.py:49 | `strip()` is a contiguous slice of the input |
| PyStr.Strip | chatjam.py:49 | `strip()` is empty exactly when the input is all whitespace, otherwise it starts and ends with non-whitespace; it is never longer than the input |
| PyStr.Lower | chatjam.py:49 | `lower()` keeps the length and lowers each character on its own |
| PyStr.FindFrom | chatjam.py:54-60 | the first index at or after `start` where the needle occurs, with no occurrence before it; none means none at all |
| PyStr.ContainsMeansOccurs | chatjam.py:54-60 | the `in` test holds exactly when the needle occurs at some index |
| PyStr.IndexOf | chatjam.py:53 | the first index of the character, or the length when it is absent |
| PyStr.AfterFirst | chatjam.py:53 | `s.split(c, 1)[1]` is the text after the first `c` |
| PyStr.Split | chatjam.py:321 | `split(' ')` always gives at least one field |
| PyStr.SplitFields | chatjam.py:321 | no field of `split(sep)` contains `sep` |
| PyStr.JoinSplit | chatjam.py:321 | joining the fields of `split(sep)` with `sep` gives back the string |
| PyStr.SplitJoin | chatjam.py:321 | splitting a join of `sep`-free fields gives back the fields |
| PyStr.StripCharLeft | chatjam.py:313 | `lstrip(c)` drops exactly the leading run of `c` |
| PyStr.StripCharRight | chatjam.py:313 | `rstrip(c)` drops exactly the trailing run of `c` |
| PyStr.StripLeftRun | chatjam.py:313 | a run of `c` in front of text not starting with `c` is all that is stripped there |
| PyStr.StripRightRun | chatjam.py:313 | a run of `c` after text not ending with `c` is all that is stripped there |
| PyStr.FirstSpace | chatjam.py:321-334 | the first whitespace index, or the length |
| PyStr.Tokens | chatjam.py:321-334 | `str.split()` gives only non-empty tokens, none of which contains whitespace |
| PyStr.TokensOfWord | chatjam.py:321-334 | a non-empty string without whitespace is its own single token |
| PyStr.TokensAround | chatjam.py:321-334 | a whitespace character between two strings separates their tokens |
| PyStr.TokensOfSpaces | chatjam.py:321-334 | an all-whitespace string has no tokens |
| PyStr.TokensTrimLeft | chatjam.py:321-334 | leading whitespace does not change the tokens |
| PyStr.TokensTrimRight | chatjam.py:321-334 | trailing whitespace does not change the tokens |
| PyStr.TokensStrip | chatjam.py:321-334 | `strip()` does not change the tokens |
| PyStr.TokensOfJoinedWord | chatjam.py:321-334 | the tokens of `(line + ' ' + w).strip()` are those of `line` followed by those of `w` |
| PyStr.TokensJoin | chatjam.py:321-334 | the tokens of `' '.join(ws)` are the tokens of each word in turn |
| PyStr.FirstBreak | chatjam.py:315 | the first line-boundary index, or the length |
| PyStr.SplitLinesNoBreak | chatjam.py:315 | no line of `splitlines()` contains a line boundary |
| PyStr.LineEnds | chatjam.py:315 | there is one boundary per line of `splitlines()`; each is `\r\n` or a single line-boundary character, and only the last line may have none |
| PyStr.SplitLinesRejoin | chatjam.py:315 | each line followed by its boundary gives back the string |
| PyStr.SplitLinesCons | chatjam.py:315 | text without a boundary, followed by `\n`, is the first line |
| PyStr.Repr | chatjam.py:308 | `repr` opens and closes with the same quote character, the one Python picks (`"` exactly when the string has `'` and no `"`) |
| Quote.Utf8 | chatjam.py:128 | 1 to 4 bytes; a single byte exactly for ASCII, equal to the code point; continuation bytes in 0x80-0xBF |
| Quote.Utf8RoundTrip | chatjam.py:128 | decoding the UTF-8 bytes of a character gives back its code point |
| Quote.QuoteBytes | chatjam.py:128 | the percent-encoded query is ASCII |
| Quote.UnquoteQuote | chatjam.py:128 | percent-decoding the encoding gives back the bytes |
| Quote.QuoteSafeIdentity | chatjam.py:133 | a query made only of safe characters is left as it is |
| Responder.DirectiveQuery | chatjam.py:53 | the query is taken from the original prompt: after the first `:`, stripped; else after the first space, unstripped; else `''` |
| Responder.FirstRule | chatjam.py:54-62 | the answer of the first rule with a keyword in the prompt; the apology when none has one |
| Responder.FirstRuleChain | chatjam.py:54-62 | the rule table in order is the chain weather, time, hello/hi, help, apology |
| Responder.LocalResponder | chatjam.py:48-62 | a directive exactly when `prompt.lower().strip()` starts with `image:` or `/img`, its query from the original prompt; otherwise the first-rule answer on the normalised prompt |
| Responder.HiInsideAWord | chatjam.py:58 | `"this"` is answered as a greeting, because `hi` is a substring test |
| Responder.GreetingOf | chatjam.py:48-60 | a normalised prompt that is no directive, has neither `weather` nor `time` and has `hi` is answered as a greeting |
| Responder.OpenAIReply | chatjam.py:65-78 | once both guards pass, an answered request gives a contiguous slice of the content, empty exactly when the content is all whitespace, with no whitespace at either end and the same words as the content |
| Responder.OpenAIFailure | chatjam.py:65-80 | once both guards pass, a request that raised gives `OpenAI request failed: ` followed by exactly the exception's message |
| Responder.WorkerRouting | chatjam.py:104-142 | with no search credentials a directive opens Google Images and queues `Opened browser for images: q`; with a link, the download decides between the found image and the browser; with no link it falls through to the text path, which queues the model's text when AI is ready and the directive itself otherwise; any other prompt queues the model's or the local answer |
| Responder.WorkerAiGuardsPass | chatjam.py:105-142 | when a worker calls the model, both guards of `call_openai` pass and the value queued is the request's text |
| Responder.WorkerBrowserOnlyForImages | chatjam.py:113-135 | the browser is opened only for an image directive, never together with a model call, and the value queued is then the browser notice |
| Markup.SplitFences | chatjam.py:310 | `re.split` with one capture group gives an odd number of parts |
| Markup.FirstSplitShape | chatjam.py:310 | the text before the leftmost fence has no fence, and the first region is fenced at both ends with no fence inside |
| Markup.SplitFencesShape | chatjam.py:310 | the parts alternate: fence-free text, a fenced region, and so on, ending with text that holds no region (no fence followed, three or more characters on, by another) |
| Markup.SplitFencesLeftmost | chatjam.py:310 | each fenced region starts at the first fence at or after the start of the text part before it, so every region is the leftmost one left |
| Markup.AlternatingAt | chatjam.py:310-312 | the odd parts are the fenced regions, the even parts before the last have no fence, and the last part holds no region |
| Markup.SplitFencesConcat | chatjam.py:310 | the parts put end to end give back the text |
| Markup.FencedTwoLines | chatjam.py:312-315 | ```` ```\na\nb\n``` ```` is a code part whose lines are `''`, `a`, `b` |
| Markup.RunEnd | chatjam.py:337 | the end of the whitespace-free run that starts at `i` |
| Markup.NextUrl | chatjam.py:340 | the leftmost position at or after `start` where `https?://\S` starts, with none before it |
| Markup.UrlMatches | chatjam.py:340 | every match is a URL span (scheme, non-whitespace, ending at whitespace or the end of the line), in order and not overlapping |
| Markup.UrlSpanLength | chatjam.py:337 | a match runs past its scheme |
| Markup.UrlMatchesCover | chatjam.py:340 | every position where a URL can start lies inside some match |
| Markup.Wrap | chatjam.py:321-334 | every flushed line is non-empty, and there are no more flushed lines than words |
| Markup.WrapTokens | chatjam.py:321-334 | the flushed lines and the last line hold every token of every word, in input order, and nothing else |
| Markup.WrapFits | chatjam.py:326-333 | every line fits `panel_width - 40`, or is empty, or is a single word |
| Markup.WrapGreedy | chatjam.py:321-334 | a line is drawn only when some word overflows it (`(line + ' ' + w).strip()` is wider than the limit), and the lines after it hold exactly the tokens of that word and the words after it |
| Layout.CodeFrameRows | chatjam.py:315-318 | one monospace row per line, in order, at `left + 24`; each row is above the one before, the `k`-th at least `4(k+1)` above the start; no items |
| Layout.FlushedFrameRows | chatjam.py:326-331 | flushed lines are drawn in order at `left + 16` and add no items |
| Layout.CodeFrameDrops | chatjam.py:315-318 | the first code row is its height plus 4 above the cursor, each later row its height plus 4 above the row before, and the cursor ends at the last row |
| Layout.FlushedFrameDrops | chatjam.py:326-331 | the same for flushed lines with a gap of 6 |
| Layout.MatchStepRows | chatjam.py:341-354 | one match draws the text before it, the URL and, exactly when `rest.strip()` is non-empty, the rest of the line, side by side from the margin on the new cursor; together they spell the line up to the match end, or the whole line when the rest is drawn |
| Layout.MatchStepLinkRow | chatjam.py:346-349 | the URL row is drawn exactly over the link item the match adds, in the link style |
| Layout.MatchFrameTops | chatjam.py:340-347 | the first link's top is the height of the text before it plus 6 above the cursor, each later one measured the same way from the link before, and the cursor ends at the last link's top |
| Layout.SpanIsUrl | chatjam.py:342 | the matched text starts with `http://` or `https://` and has no whitespace |
| Layout.MatchFrameLinks | chatjam.py:340-349 | one link per match, in order, at `x = left + 16 + width(line[:start])`, sized as the URL |
| Layout.MatchFrameDrops | chatjam.py:344 | each match drops the cursor by at least 6 |
| Layout.LinksToUrls | chatjam.py:349 | every item added for the matches is a link to a URL |
| Layout.LastLineLinks | chatjam.py:334-359 | an empty last line draws nothing; otherwise one link per match, the cursor drops `matches + 1` times, and the row drawn last is the whole line |
| Layout.ProseLinksFromLastLine | chatjam.py:320-359 | the links of a prose part are exactly the matches of its last wrapped line |
| Layout.CodePartRows | chatjam.py:312-318 | a fenced part draws its lines last-first, each above the one before, so they read top to bottom in source order; no items |
| Layout.FencedTwoLinesRows | chatjam.py:310-318 | ```` ```\na\nb\n``` ```` draws three rows, `b`, then `a`, then `''`, each above the last |
| Layout.PartLinks | chatjam.py:311-359 | everything a part adds to `rendered_items` is a link to a URL |
| Layout.PartsLinks | chatjam.py:311-359 | the same for all the parts of a text |
| Layout.TextLinks | chatjam.py:307-359 | the same for a whole text turn |
| Layout.LabelFrame | chatjam.py:283-286 | the label `speaker:` is drawn and `y` drops by at least 12 |
| Layout.TurnFrame | chatjam.py:282-359 | a turn keeps what was drawn and strictly lowers `y` |
| Layout.TurnItems | chatjam.py:288-305 | a found image that loads adds exactly one image item covering the drawn image; any other turn adds only links |
| Layout.StopLoopIsPrefix | chatjam.py:360-361 | the loop with `break` equals laying out its first `n` turns one after another |
| Layout.StopLoopBefore | chatjam.py:360-361 | before the `n`-th turn the cursor had not crossed the stop line |
| Layout.StopLoopCrossed | chatjam.py:360-361 | when turns are left over, the `n`-th turn crossed it |
| Layout.StopRule | chatjam.py:281-361 | the pass lays out the first `n` turns, at least one when there are any; the cursor had not crossed before turn `n` and had crossed after it unless the turns ran out |
| Layout.Window | chatjam.py:281 | the turns of a pass are `chat[-40:]`, newest first |
| Layout.LayoutItemsFromWindow | chatjam.py:279-361 | every item of a pass is a link to a URL or the image of a found-image turn in the window |
| Layout.LayoutCode | chatjam.py:315-318 | the code loop computes the code rows |
| Layout.LayoutLastLine | chatjam.py:334-359 | the `finditer` loop and its `else` compute the last line |
| Layout.LayoutProse | chatjam.py:320-359 | the word loop and the last line compute the prose part |
| Layout.LayoutText | chatjam.py:308-359 | the loop over the parts computes the text turn |
| Layout.LayoutTurn | chatjam.py:282-359 | one turn, label first |
| Layout.LayoutChat | chatjam.py:278-361 | the pass over the window with its stop rule |
| App.FirstHit | chatjam.py:219-226 | the first item, in emission order, whose rect contains the point, or none when none does |
| App.ModalSwallowsClick | chatjam.py:210-212 | with an image open, a click only closes it |
| App.FirstItemDecides | chatjam.py:219-226 | the first hit acts alone: a link opens its URL, an image opens in the modal |
| App.MissChangesNothing | chatjam.py:219-228 | a click that hits nothing changes nothing |
| App.BackspaceDropsLast | chatjam.py:230-231 | Backspace drops the last character, and an empty buffer stays empty |
| App.TypingAppends | chatjam.py:239-242 | any other key appends its text, and a key with no text changes nothing |
| App.SendsIffNotBlank | chatjam.py:232-233 | Enter sends exactly when the buffer has a non-whitespace character |
| App.BotTurns | chatjam.py:253-265 | each drained value becomes one `Bot` turn, in queue order |
| App.RunWorker | chatjam.py:104-142 | the worker's steps compute the routing function |
| App.ChatApp.constructor | chatjam.py:186-199 | the history holds the greeting; AI starts on when the key is set and `openai` imported; no modal, no items, no queue |
| App.ChatApp.Click | chatjam.py:207-228 | the page opened and the new modal are the click outcome; nothing else changes |
| App.ChatApp.KeyDown | chatjam.py:229-250 | the new buffer, the turns appended (the `You` turn, then the Shift notice), the flag flip, and the one worker started when Enter sends |
| App.ChatApp.EditInput | chatjam.py:230-242 | Backspace, Enter and typing; Enter on non-blank input appends one `You` turn, starts one worker and clears the buffer |
| App.ChatApp.Send | chatjam.py:233-238 | one `You` turn, one worker started with the buffer and the flag, an empty buffer |
| App.ChatApp.ToggleMode | chatjam.py:244-250 | Shift flips `use_openai` and appends exactly one Bot notice |
| App.ChatApp.Drain | chatjam.py:253-267 | the history gains each queued value once, as a `Bot` turn, in queue order, and the queue ends empty |
| App.ChatApp.TakeOne | chatjam.py:255-265 | the front of the queue becomes the next `Bot` turn |
| App.ChatApp.FinishWorker | chatjam.py:104-142 | a worker finishes with the routing function's run and queues exactly its one value |
| App.ChatApp.Deliver | chatjam.py:142 | `result_q.put`: one value at the back of the queue, and the worker leaves the running set |
| App.ChatApp.Render | chatjam.py:278-361 | `rendered_items` holds exactly the items of this frame's pass |
| App.OneValuePerWorker | chatjam.py:236-237 | every `You` turn started one worker, which is still running, or has its value on the queue, or has had it drained |

## Left out

- Drawing: surfaces, `blit`, `fill`, colours, rounded rects and the
  background image. The model records rows as data; font measurement is a
  pair of abstract functions `width` and `height`.
- Image scaling (chatjam.py:292-295): floating-point scale factors and
  `smoothscale`. The loader is an input that gives the drawn size or a
  failure.
- The network and files: `google_cse_image_search`, `urlopen`, writing the
  downloaded image, and the request inside `call_openai`. These are inputs:
  the link found, the download outcome, and the request's answer or error.
- `os.getenv`, `time.asctime` and `time.time`. The environment is a value.
  The local time answer is left as the answer kind `Time`, its text read from
  a parameter. The file name of a saved image is part of the download outcome.
- `webbrowser.open`: the page opened is returned as a value.
- Threads and speech (`init_tts`, `speak_text`, the speech threads in the
  drain). A worker finishing is a method call that can complete any running
  worker, which stands for any interleaving. The queue is a sequence.
- The frame clock, the window title, and the input box, hint and AI badge
  (chatjam.py:363-382). These are drawing with no effect on state.
- The quit event (chatjam.py:205-206) sets `running = False` and ends the
  main loop. The model has no main loop, so it has no running flag.
- The sign-in branch of the click handler (chatjam.py:213-217). `sign_rect` is
  set to `None` at chatjam.py:195 and never assigned, so the branch cannot run.
- The click loop wraps each item in `try/except Exception: pass`
  (chatjam.py:220-227), so an item that raises is skipped. The model's items
  always have a rect, a kind and the field that kind needs, so none can raise.
- `input_active` is always true, so the key handler is modelled without it.
- PyStr.Lower: lower-cases ASCII letters only. Python also lowers other
  scripts.
- PyStr.Repr: escapes the ASCII and Latin-1 control characters, the
  no-break space U+00A0 and the soft hyphen. Python also escapes other non-printable code points, with `\u` and
  `\U` forms.
- Markup.WrapTokens: the content of the wrapped lines is stated at the level
  of `str.split()` tokens. `strip()` keeps whitespace inside a word, so no
  simple character-exact statement relates the lines to the words.
- Layout.TurnItems: the image rectangle comes from the loader's drawn size.
  The rounding that `int(w * scale)` does is not modelled.

Two behaviours of the code a reader may not expect:

- A prompt that is an image directive can reach the language model. This
  happens when search credentials are set, the search finds no link, and AI
  is on and configured. See `Responder.WorkerRouting`.
- A fenced block whose opening fence is followed by a newline has an empty
  first code line. ```` ```\nline1\nline2\n``` ```` draws three rows:
  `line2`, then `line1` above it, then `''` above that, so the empty row reads
  first, at the top. See `Layout.FencedTwoLinesRows`.
