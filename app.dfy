/**
 * The window's event handling: the state `main` keeps between frames, the
 * mouse and key handlers, the drain of the result queue, a worker finishing,
 * and the layout pass that rebuilds the clickable items.
 */
module App {
  import opened Wrappers
  import opened Seqs
  import opened PyStr
  import opened Chat
  import opened Responder
  import opened Layout

  /** The keys the key handler tells apart. */
  datatype Key = Backspace | Return | LeftShift | RightShift | OtherKey

  predicate IsShift(k: Key)
  {
    k == LeftShift || k == RightShift
  }

  /** A started worker thread: its `args=(input_text, use_openai)`. */
  datatype Task = Task(prompt: string, useOpenai: bool)

  // ---------------------------------------------------------------------------
  // Clicks

  /** The first item, in emission order, whose rectangle contains the point. */
  function FirstHit(items: seq<Item>, x: int, y: int): (r: Option<nat>)
    ensures r.Some? ==> r.value < |items| && Collides(ItemRect(items[r.value]), x, y)
    ensures r.Some? ==> forall j :: 0 <= j < r.value ==> !Collides(ItemRect(items[j]), x, y)
    ensures r.None? ==> forall j :: 0 <= j < |items| ==> !Collides(ItemRect(items[j]), x, y)
  {
    if items == [] then None
    else if Collides(ItemRect(items[0]), x, y) then Some(0)
    else match FirstHit(items[1..], x, y)
      case None => None
      case Some(k) => Some(k + 1)
  }

  /** What a click does: the page opened in the browser, if any, and the new image modal. */
  datatype ClickResult = ClickResult(browser: Option<string>, modal: Option<string>)

  /** The click handler (the sign-in branch is dead: `sign_rect` is never set). */
  function ClickOutcome(modal: Option<string>, items: seq<Item>, x: int, y: int): ClickResult
  {
    if Truthy(modal) then ClickResult(None, None)
    else match FirstHit(items, x, y)
      case None => ClickResult(None, modal)
      case Some(k) =>
        match items[k]
        case LinkItem(_, url) => ClickResult(Some(url), modal)
        case ImageItem(_, path) => ClickResult(None, Some(path))
  }

  /** An open image modal swallows the click: it is closed and nothing else happens. */
  lemma ModalSwallowsClick(modal: Option<string>, items: seq<Item>, x: int, y: int)
    requires Truthy(modal)
    ensures ClickOutcome(modal, items, x, y) == ClickResult(None, None)
  {
  }

  /**
   * With no modal open, the earliest item containing the point decides: a link
   * is opened, an image becomes the modal. Later items are never consulted, so
   * at most one action happens.
   */
  lemma {:induction false} FirstItemDecides(modal: Option<string>, items: seq<Item>, x: int, y: int, k: nat)
    requires !Truthy(modal) && k < |items| && Collides(ItemRect(items[k]), x, y)
    requires forall j :: 0 <= j < k ==> !Collides(ItemRect(items[j]), x, y)
    ensures var r := ClickOutcome(modal, items, x, y);
      match items[k]
      case LinkItem(_, url) => r == ClickResult(Some(url), modal)
      case ImageItem(_, path) => r == ClickResult(None, Some(path))
  {
  }

  /** A click that hits nothing changes nothing. */
  lemma MissChangesNothing(modal: Option<string>, items: seq<Item>, x: int, y: int)
    requires !Truthy(modal) && forall j :: 0 <= j < |items| ==> !Collides(ItemRect(items[j]), x, y)
    ensures ClickOutcome(modal, items, x, y) == ClickResult(None, modal)
  {
  }

  // ---------------------------------------------------------------------------
  // Keys

  const NotConfiguredNotice := "OpenAI enabled but not configured: install openai package and set OPENAI_API_KEY to use it."

  /** The Bot notice after a Shift press has set the flag to `useOpenai`. */
  function ToggleNotice(useOpenai: bool, env: Env): string
  {
    if useOpenai && (!env.openaiInstalled || env.openaiKey.None?) then NotConfiguredNotice
    else "OpenAI usage set to " + BoolText(useOpenai)
  }

  /** `input_text` after a key press. */
  function NextInput(key: Key, unicode: string, input: string): (r: string)
  {
    match key
    case Backspace => if input == [] then [] else input[..|input| - 1]
    case Return => if Strip(input) != "" then "" else input
    case _ => input + unicode
  }

  /** Backspace drops the last character; an empty buffer stays empty. */
  lemma BackspaceDropsLast(unicode: string, input: string)
    ensures var r := NextInput(Backspace, unicode, input);
      (input == "" ==> r == "") && (input != "" ==> r + [input[|input| - 1]] == input)
  {
  }

  /** Any other key, Shift included, appends the key's text (nothing when it has none). */
  lemma TypingAppends(key: Key, unicode: string, input: string)
    requires key != Backspace && key != Return
    ensures NextInput(key, unicode, input) == input + unicode
    ensures unicode == "" ==> NextInput(key, unicode, input) == input
  {
  }

  /** Whether Return sends: the buffer has some non-whitespace character. */
  predicate Sends(key: Key, input: string)
  {
    key == Return && Strip(input) != ""
  }

  lemma SendsIffNotBlank(input: string)
    ensures Sends(Return, input) <==> exists k :: 0 <= k < |input| && !IsSpace(input[k])
  {
    if Strip(input) == "" {
      assert AllSpace(input);
    } else {
      assert !AllSpace(input);
    }
  }

  /** The turns a key press appends to the history. */
  function KeyTurns(key: Key, input: string, useOpenai: bool, env: Env): seq<Turn>
  {
    (if Sends(key, input) then [Turn(You, Str(input))] else [])
    + (if IsShift(key) then [Turn(Bot, Str(ToggleNotice(!useOpenai, env)))] else [])
  }

  // ---------------------------------------------------------------------------
  // The queue

  /** Each dequeued result, as a Bot turn. */
  function BotTurns(vs: seq<Value>): (r: seq<Turn>)
    ensures |r| == |vs|
    ensures forall k :: 0 <= k < |vs| ==> r[k] == Turn(Bot, vs[k])
  {
    if vs == [] then [] else [Turn(Bot, vs[0])] + BotTurns(vs[1..])
  }

  /** The number of `You` turns. */
  function YouCount(turns: seq<Turn>): nat
  {
    if turns == [] then 0 else (if turns[0].speaker == You then 1 else 0) + YouCount(turns[1..])
  }

  lemma {:induction false} YouCountAppend(a: seq<Turn>, b: seq<Turn>)
    ensures YouCount(a + b) == YouCount(a) + YouCount(b)
  {
    if a != [] {
      assert (a + b)[1..] == a[1..] + b;
      YouCountAppend(a[1..], b);
    } else {
      assert a + b == b;
    }
  }

  lemma {:induction false} YouCountBot(vs: seq<Value>)
    ensures YouCount(BotTurns(vs)) == 0
  {
    if vs != [] {
      assert BotTurns(vs)[1..] == BotTurns(vs[1..]);
      YouCountBot(vs[1..]);
    }
  }

  /**
   * One worker thread, step by step, run to completion on what it met: the
   * search credentials, the link found, the download and the model's outcome.
   */
  method RunWorker(t: Task, env: Env, now: string, link: Option<string>, download: Download, ai: AiOutcome)
    returns (run: Run)
    ensures run == Worker(t.prompt, t.useOpenai, env, now, link, download, ai)
  {
    var apiKey := if t.useOpenai then env.openaiKey else None;
    var local := LocalResponder(t.prompt);
    var searched := false;
    if local.Directive? {
      var q := local.query;
      if SearchConfigured(env) {
        searched := true;
        if Truthy(link) {
          match download {
            case Saved(path) =>
              return Run(None, true, false, ImageFound(FoundCaption(q), path));
            case DownloadFailed =>
              return Run(Some(ImagesUrl(q)), true, false, Str(BrowserNotice(q)));
          }
        }
      } else {
        return Run(Some(ImagesUrl(q)), false, false, Str(BrowserNotice(q)));
      }
    }
    var res: Value;
    var calledAi := false;
    if t.useOpenai && Truthy(apiKey) && env.openaiInstalled {
      res := Str(CallOpenAI(env.openaiInstalled, apiKey, ai));
      calledAi := true;
    } else {
      match local {
        case Reply(a) => res := Str(AnswerText(a, now));
        case Directive(q) => res := ImageDirective(q);
      }
    }
    run := Run(None, searched, calledAi, res);
  }

  // ---------------------------------------------------------------------------
  // The window

  class ChatApp {
    var inputText: string
    var chat: seq<Turn>
    var useOpenai: bool
    var imageModal: Option<string>
    var renderedItems: seq<Item>
    /** `result_q`, front first. */
    var results: seq<Value>
    /** The worker threads started and not yet finished. */
    var pending: seq<Task>
    /** How many workers have finished, and how many results the frame loop has taken. */
    ghost var finished: nat
    ghost var drained: nat

    /**
     * The history starts with the opening line; every `You` turn started one
     * worker, still running or finished; and every finished worker put exactly
     * one value on the queue, still there or already taken.
     */
    ghost predicate Valid()
      reads this
    {
      |chat| >= 1 && chat[0] == Turn(Bot, Str(OpeningLine))
      && YouCount(chat) == |pending| + finished
      && finished == drained + |results|
    }

    constructor (env: Env)
      ensures Valid()
      ensures inputText == "" && chat == [Turn(Bot, Str(OpeningLine))]
      ensures useOpenai == (env.openaiKey.Some? && env.openaiInstalled)
      ensures imageModal == None && renderedItems == [] && results == [] && pending == []
    {
      inputText := "";
      chat := [Turn(Bot, Str(OpeningLine))];
      useOpenai := env.openaiKey.Some? && env.openaiInstalled;
      imageModal := None;
      renderedItems := [];
      results := [];
      pending := [];
      finished := 0;
      drained := 0;
      new;
      assert YouCount(chat) == 0 by { assert chat[1..] == []; }
    }

    /** A left click at `(x, y)`; returns the page opened in the browser, if any. */
    method Click(x: int, y: int) returns (browser: Option<string>)
      requires Valid()
      modifies this
      ensures Valid()
      ensures ClickResult(browser, imageModal) == ClickOutcome(old(imageModal), renderedItems, x, y)
      ensures inputText == old(inputText) && chat == old(chat) && useOpenai == old(useOpenai)
      ensures renderedItems == old(renderedItems) && results == old(results) && pending == old(pending)
      ensures finished == old(finished) && drained == old(drained)
    {
      browser := None;
      if imageModal.Some? && imageModal.value != "" {
        imageModal := None;
        return;
      }
      var items := renderedItems;
      var i := 0;
      while i < |items|
        invariant 0 <= i <= |items|
        invariant forall j :: 0 <= j < i ==> !Collides(ItemRect(items[j]), x, y)
        invariant browser == None && imageModal == old(imageModal)
      {
        var itm := items[i];
        if Collides(ItemRect(itm), x, y) {
          match itm {
            case LinkItem(_, url) => browser := Some(url);
            case ImageItem(_, path) => imageModal := Some(path);
          }
          FirstItemDecides(old(imageModal), items, x, y, i);
          return;
        }
        i := i + 1;
      }
      MissChangesNothing(old(imageModal), items, x, y);
    }

    /** A key press with its text `unicode`; `env` is read for the Shift notice. */
    method KeyDown(key: Key, unicode: string, env: Env)
      requires Valid()
      modifies this
      ensures Valid()
      ensures inputText == NextInput(key, unicode, old(inputText))
      ensures chat == old(chat) + KeyTurns(key, old(inputText), old(useOpenai), env)
      ensures useOpenai == (if IsShift(key) then !old(useOpenai) else old(useOpenai))
      ensures pending == old(pending) + (if Sends(key, old(inputText)) then [Task(old(inputText), old(useOpenai))] else [])
      ensures imageModal == old(imageModal) && renderedItems == old(renderedItems) && results == old(results)
      ensures finished == old(finished) && drained == old(drained)
    {
      ghost var sent := if Sends(key, inputText) then [Turn(You, Str(inputText))] else [];
      ghost var c0 := chat;
      EditInput(key, unicode);
      ghost var c1 := chat;
      ToggleMode(key, env);
      AppendAssoc(c0, sent, chat[|c1|..]);
    }

    /** The Backspace / Return / text branch of the key handler. */
    method EditInput(key: Key, unicode: string)
      requires Valid()
      modifies this
      ensures Valid()
      ensures inputText == NextInput(key, unicode, old(inputText))
      ensures chat == old(chat) + (if Sends(key, old(inputText)) then [Turn(You, Str(old(inputText)))] else [])
      ensures pending == old(pending) + (if Sends(key, old(inputText)) then [Task(old(inputText), old(useOpenai))] else [])
      ensures useOpenai == old(useOpenai) && imageModal == old(imageModal)
      ensures renderedItems == old(renderedItems) && results == old(results)
      ensures finished == old(finished) && drained == old(drained)
    {
      if key == Backspace {
        if inputText != [] {
          inputText := inputText[..|inputText| - 1];
        }
      } else if key == Return {
        if Strip(inputText) != "" {
          Send();
        }
      } else {
        if unicode != "" {
          inputText := inputText + unicode;
        }
      }
    }

    /** Return on a non-blank buffer: the buffer becomes a `You` turn and a worker's task. */
    method Send()
      requires Valid()
      modifies this
      ensures Valid()
      ensures chat == old(chat) + [Turn(You, Str(old(inputText)))]
      ensures pending == old(pending) + [Task(old(inputText), old(useOpenai))]
      ensures inputText == "" && useOpenai == old(useOpenai) && imageModal == old(imageModal)
      ensures renderedItems == old(renderedItems) && results == old(results)
      ensures finished == old(finished) && drained == old(drained)
    {
      var sent := [Turn(You, Str(inputText))];
      YouCountAppend(chat, sent);
      assert YouCount(sent) == 1 by { assert sent[1..] == []; }
      chat := chat + sent;
      pending := pending + [Task(inputText, useOpenai)];
      inputText := "";
    }

    /** The Shift branch of the key handler: flip the backend and announce it. */
    method ToggleMode(key: Key, env: Env)
      requires Valid()
      modifies this
      ensures Valid()
      ensures useOpenai == (if IsShift(key) then !old(useOpenai) else old(useOpenai))
      ensures chat == old(chat) + (if IsShift(key) then [Turn(Bot, Str(ToggleNotice(useOpenai, env)))] else [])
      ensures inputText == old(inputText) && pending == old(pending) && imageModal == old(imageModal)
      ensures renderedItems == old(renderedItems) && results == old(results)
      ensures finished == old(finished) && drained == old(drained)
    {
      if key == LeftShift || key == RightShift {
        useOpenai := !useOpenai;
        var notice := [Turn(Bot, Str(ToggleNotice(useOpenai, env)))];
        YouCountAppend(chat, notice);
        assert YouCount(notice) == 0 by { assert notice[1..] == []; }
        chat := chat + notice;
      }
    }

    /** The frame loop's `while True: result_q.get_nowait()` until the queue is empty. */
    method Drain()
      requires Valid()
      modifies this
      ensures Valid()
      ensures chat == old(chat) + BotTurns(old(results)) && results == []
      ensures inputText == old(inputText) && useOpenai == old(useOpenai) && imageModal == old(imageModal)
      ensures renderedItems == old(renderedItems) && pending == old(pending) && finished == old(finished)
    {
      while results != []
        invariant Valid()
        invariant chat + BotTurns(results) == old(chat) + BotTurns(old(results))
        invariant inputText == old(inputText) && useOpenai == old(useOpenai) && imageModal == old(imageModal)
        invariant renderedItems == old(renderedItems) && pending == old(pending) && finished == old(finished)
        decreases |results|
      {
        ghost var before := results;
        ghost var prior := chat;
        TakeOne();
        assert BotTurns(before) == [Turn(Bot, before[0])] + BotTurns(results);
        AppendAssoc(prior, [Turn(Bot, before[0])], BotTurns(results));
      }
    }

    /** One `result_q.get_nowait()` that found a value: it becomes a Bot turn. */
    method TakeOne()
      requires Valid() && results != []
      modifies this
      ensures Valid()
      ensures chat == old(chat) + [Turn(Bot, old(results)[0])] && results == old(results)[1..]
      ensures inputText == old(inputText) && useOpenai == old(useOpenai) && imageModal == old(imageModal)
      ensures renderedItems == old(renderedItems) && pending == old(pending) && finished == old(finished)
    {
      var res := results[0];
      YouCountAppend(chat, [Turn(Bot, res)]);
      assert YouCount([Turn(Bot, res)]) == 0 by { assert [Turn(Bot, res)][1..] == []; }
      chat := chat + [Turn(Bot, res)];
      results := results[1..];
      drained := drained + 1;
    }

    /**
     * The `k`-th running worker finishes: it puts exactly one value on the
     * queue and is gone. The environment, the search link, the download and
     * the language model's outcome are what it met while it ran.
     */
    method FinishWorker(k: nat, env: Env, now: string, link: Option<string>, download: Download, ai: AiOutcome)
      returns (run: Run)
      requires Valid() && k < |pending|
      modifies this
      ensures Valid()
      ensures run == Worker(old(pending)[k].prompt, old(pending)[k].useOpenai, env, now, link, download, ai)
      ensures results == old(results) + [run.value]
      ensures pending == old(pending)[..k] + old(pending)[k + 1..]
      ensures inputText == old(inputText) && chat == old(chat) && useOpenai == old(useOpenai)
      ensures imageModal == old(imageModal) && renderedItems == old(renderedItems)
    {
      run := RunWorker(pending[k], env, now, link, download, ai);
      Deliver(k, run.value);
    }

    /** The `k`-th worker's `result_q.put(value)`, after which it returns. */
    method Deliver(k: nat, value: Value)
      requires Valid() && k < |pending|
      modifies this
      ensures Valid()
      ensures results == old(results) + [value]
      ensures pending == old(pending)[..k] + old(pending)[k + 1..]
      ensures inputText == old(inputText) && chat == old(chat) && useOpenai == old(useOpenai)
      ensures imageModal == old(imageModal) && renderedItems == old(renderedItems)
    {
      results := results + [value];
      pending := pending[..k] + pending[k + 1..];
      finished := finished + 1;
    }

    /** One layout pass: `rendered_items` is cleared and refilled; the rows drawn are returned. */
    method Render(d: Display) returns (rows: seq<Row>)
      requires Valid()
      modifies this
      ensures Valid()
      ensures renderedItems == LayoutFrame(d, chat).items && rows == LayoutFrame(d, chat).rows
      ensures inputText == old(inputText) && chat == old(chat) && useOpenai == old(useOpenai)
      ensures imageModal == old(imageModal) && results == old(results) && pending == old(pending)
      ensures finished == old(finished) && drained == old(drained)
    {
      renderedItems := [];
      var f := LayoutChat(d, chat);
      renderedItems := renderedItems + f.items;
      rows := f.rows;
    }
  }

  /** Every worker that started puts exactly one value on the queue: nothing is lost and nothing doubled. */
  lemma OneValuePerWorker(app: ChatApp)
    requires app.Valid()
    ensures YouCount(app.chat) == |app.pending| + app.drained + |app.results|
  {
  }
}
