/** What travels through the result queue and what the chat history holds. */
module Chat {

  /**
   * A result value. The worker enqueues either a str, the image dict
   * `{'text': caption, 'image': path}`, or, on one fall-through path, the
   * responder's own `{'_image_query': q}` dict.
   */
  datatype Value =
    | Str(text: string)
    | ImageFound(caption: string, path: string)
    | ImageDirective(query: string)

  datatype Speaker = You | Bot

  /** One `(speaker, text)` tuple of the `chat` list. */
  datatype Turn = Turn(speaker: Speaker, content: Value)

  function SpeakerName(s: Speaker): string
  {
    match s
    case You => "You"
    case Bot => "Bot"
  }

  /** The first Bot turn the window starts with. */
  const OpeningLine := "hello i'm chatjam how can i help you today"
}

/**
 * The local rule-based responder, the guard branches of the language-model
 * call, and the routing done by one worker thread.
 */
module Responder {
  import opened Wrappers
  import opened PyStr
  import opened Chat
  import Quote

  // ---------------------------------------------------------------------------
  // local_responder

  /** The canned answers of the local responder. */
  datatype Answer = Weather | Time | Greeting | Help | Apology

  /** A local answer, or the image-search directive `{'_image_query': q}`. */
  datatype Local = Directive(query: string) | Reply(answer: Answer)

  /** The text of an answer; `now` stands for `time.asctime()`. */
  function AnswerText(a: Answer, now: string): string
  {
    match a
    case Weather => "I don't have live weather here, but remember to bring a jacket if it's cold!"
    case Time => "Local time is " + now
    case Greeting => "Hello! How can I help you today?"
    case Help => "This is a demo chatbot. You can ask simple questions or set OPENAI_API_KEY to use OpenAI."
    case Apology => "Sorry, I can't answer that locally. Try setting an OpenAI API key in your environment to get full answers."
  }

  /** `prompt.lower().strip()` */
  function Normalized(prompt: string): string
  {
    Strip(Lower(prompt))
  }

  /** The image directive: the normalised prompt starts with `image:` or `/img`. */
  predicate IsImageDirective(prompt: string)
  {
    var p := Normalized(prompt);
    StartsWith(p, "image:") || StartsWith(p, "/img")
  }

  /**
   * The query of a directive, taken from the original prompt: after the first
   * `:` and stripped; else after the first space, unstripped; else empty.
   */
  function DirectiveQuery(prompt: string): (q: string)
    ensures ':' in prompt ==>
      exists i :: 0 <= i < |prompt| && prompt[i] == ':' && ':' !in prompt[..i] && q == Strip(prompt[i + 1..])
    ensures ':' !in prompt && ' ' in prompt ==>
      exists i :: 0 <= i < |prompt| && prompt[i] == ' ' && ' ' !in prompt[..i] && q == prompt[i + 1..]
    ensures ':' !in prompt && ' ' !in prompt ==> q == ""
  {
    if ':' in prompt then Strip(AfterFirst(prompt, ':'))
    else if ' ' in prompt then AfterFirst(prompt, ' ')
    else ""
  }

  /** The keyword tests of the responder, in the order it makes them. */
  const Rules: seq<(seq<string>, Answer)> :=
    [(["weather"], Weather), (["time"], Time), (["hello", "hi"], Greeting), (["help"], Help)]

  predicate AnyIn(p: string, keys: seq<string>)
  {
    exists k :: 0 <= k < |keys| && Contains(p, keys[k])
  }

  /** The answer of the first rule one of whose keywords is a substring of `p`. */
  function FirstRule(p: string, rules: seq<(seq<string>, Answer)>): (a: Answer)
    ensures a == Apology || exists i :: 0 <= i < |rules| && a == rules[i].1
    ensures (forall i :: 0 <= i < |rules| ==> !AnyIn(p, rules[i].0)) ==> a == Apology
    ensures forall i :: (0 <= i < |rules| && AnyIn(p, rules[i].0)
              && (forall j :: 0 <= j < i ==> !AnyIn(p, rules[j].0))) ==> a == rules[i].1
  {
    if rules == [] then Apology
    else if AnyIn(p, rules[0].0) then rules[0].1
    else FirstRule(p, rules[1..])
  }

  /** The rule table read in order is the responder's chain of substring tests. */
  lemma FirstRuleChain(p: string)
    ensures FirstRule(p, Rules) ==
      if Contains(p, "weather") then Weather
      else if Contains(p, "time") then Time
      else if Contains(p, "hello") || Contains(p, "hi") then Greeting
      else if Contains(p, "help") then Help
      else Apology
  {
    assert AnyIn(p, ["weather"]) <==> Contains(p, "weather") by {
      if Contains(p, "weather") { assert ["weather"][0] == "weather"; }
    }
    assert AnyIn(p, ["time"]) <==> Contains(p, "time") by {
      if Contains(p, "time") { assert ["time"][0] == "time"; }
    }
    assert AnyIn(p, ["hello", "hi"]) <==> Contains(p, "hello") || Contains(p, "hi") by {
      if Contains(p, "hello") { assert ["hello", "hi"][0] == "hello"; }
      if Contains(p, "hi") { assert ["hello", "hi"][1] == "hi"; }
    }
    assert AnyIn(p, ["help"]) <==> Contains(p, "help") by {
      if Contains(p, "help") { assert ["help"][0] == "help"; }
    }
    var r1 := Rules[1..];
    var r2 := r1[1..];
    var r3 := r2[1..];
    assert r1 == [(["time"], Time), (["hello", "hi"], Greeting), (["help"], Help)];
    assert r2 == [(["hello", "hi"], Greeting), (["help"], Help)];
    assert r3 == [(["help"], Help)];
    assert r3[1..] == [];
    assert FirstRule(p, r3) == if AnyIn(p, ["help"]) then Help else Apology;
    assert FirstRule(p, r2) == if AnyIn(p, ["hello", "hi"]) then Greeting else FirstRule(p, r3);
    assert FirstRule(p, r1) == if AnyIn(p, ["time"]) then Time else FirstRule(p, r2);
    assert FirstRule(p, Rules) == if AnyIn(p, ["weather"]) then Weather else FirstRule(p, r1);
  }

  /** `local_responder(prompt)`, with the clock-dependent time answer left as the kind `Time`. */
  function LocalResponder(prompt: string): (r: Local)
    ensures r.Directive? <==> IsImageDirective(prompt)
    ensures r.Directive? ==> r.query == DirectiveQuery(prompt)
    ensures r.Reply? ==> r.answer == FirstRule(Normalized(prompt), Rules)
  {
    var p := Normalized(prompt);
    FirstRuleChain(p);
    if StartsWith(p, "image:") || StartsWith(p, "/img") then Directive(DirectiveQuery(prompt))
    else if Contains(p, "weather") then Reply(Weather)
    else if Contains(p, "time") then Reply(Time)
    else if Contains(p, "hello") || Contains(p, "hi") then Reply(Greeting)
    else if Contains(p, "help") then Reply(Help)
    else Reply(Apology)
  }

  lemma ThisIsNoDirective(s: string)
    requires s == "this"
    ensures !StartsWith(s, "image:") && !StartsWith(s, "/img")
  {
    assert s[..4][0] != "/img"[0];
  }

  lemma ThisLower(s: string)
    requires s == "this"
    ensures Lower(s) == s
  {
  }

  lemma ThisStripped(s: string)
    requires s == "this"
    ensures Strip(s) == s
  {
    assert TrimLeft(s) == s;
    assert TrimRight(s) == s;
  }

  lemma ThisKeywords(s: string)
    requires s == "this"
    ensures !Contains(s, "weather") && !Contains(s, "time") && Contains(s, "hi")
  {
    ContainsMeansOccurs(s, "weather");
    ContainsMeansOccurs(s, "time");
    assert !OccursAt(s, "time", 0) by {
      assert s[0..4][1] != "time"[1];
    }
    ContainsMeansOccurs(s, "hi");
    assert OccursAt(s, "hi", 1);
  }

  /**
   * The `hi` test is a plain substring test: `"this"` (a prompt with no
   * greeting in it) is answered as a greeting.
   */
  lemma HiInsideAWord(prompt: string)
    requires prompt == "this"
    ensures LocalResponder(prompt) == Reply(Greeting)
  {
    ThisLower(prompt);
    ThisStripped(prompt);
    ThisIsNoDirective(prompt);
    ThisKeywords(prompt);
    GreetingOf(prompt);
  }

  /** A normalised prompt with `hi` but neither earlier keyword nor a directive prefix is greeted. */
  lemma GreetingOf(p: string)
    requires Strip(Lower(p)) == p
    requires !StartsWith(p, "image:") && !StartsWith(p, "/img")
    requires !Contains(p, "weather") && !Contains(p, "time") && Contains(p, "hi")
    ensures LocalResponder(p) == Reply(Greeting)
  {
    assert Normalized(p) == p;
    assert !IsImageDirective(p);
    FirstRuleChain(p);
  }

  // ---------------------------------------------------------------------------
  // call_openai

  /** What the language-model request did: answered with some content, or raised. */
  datatype AiOutcome = Answered(content: string) | Raised(message: string)

  const FailurePrefix := "OpenAI request failed: "

  /** The text `call_openai` returns once both of its guards have passed. */
  function AiText(ai: AiOutcome): string
  {
    match ai
    case Answered(c) => Strip(c)
    case Raised(m) => FailurePrefix + m
  }

  const NotInstalledText := "OpenAI package not installed. Install `openai` to enable full responses."
  const NoKeyText := "OpenAI API key not set in environment variable OPENAI_API_KEY."

  /** `call_openai(prompt, api_key)`: two guards, then the request. */
  function CallOpenAI(installed: bool, apiKey: Option<string>, ai: AiOutcome): (r: string)
    ensures !installed ==> r == NotInstalledText
    ensures installed && apiKey.None? ==> r == NoKeyText
    ensures installed && apiKey.Some? ==> r == AiText(ai)
  {
    if !installed then NotInstalledText
    else if apiKey.None? then NoKeyText
    else AiText(ai)
  }

  /**
   * What a caller of `call_openai` gets once both guards pass and the model
   * answered: its content as one contiguous piece, with the whitespace around
   * it removed and the same words.
   */
  lemma OpenAIReply(installed: bool, apiKey: Option<string>, c: string)
    requires installed && apiKey.Some?
    ensures var r := CallOpenAI(installed, apiKey, Answered(c));
      (exists i, j :: 0 <= i <= j <= |c| && r == c[i..j])
      && (r == [] <==> AllSpace(c))
      && Trimmed(r) && Tokens(r) == Tokens(c)
  {
    StrippedReply(c, CallOpenAI(installed, apiKey, Answered(c)));
  }

  /** When the request raised, the reply is the failure text followed by the exception's message. */
  lemma OpenAIFailure(installed: bool, apiKey: Option<string>, m: string)
    requires installed && apiKey.Some?
    ensures var r := CallOpenAI(installed, apiKey, Raised(m));
      StartsWith(r, FailurePrefix) && r[|FailurePrefix|..] == m
  {
    var r := FailurePrefix + m;
    assert r[..|FailurePrefix|] == FailurePrefix && r[|FailurePrefix|..] == m;
  }

  lemma StrippedReply(c: string, r: string)
    requires r == Strip(c)
    ensures exists i, j :: 0 <= i <= j <= |c| && r == c[i..j]
    ensures r == [] <==> AllSpace(c)
    ensures Trimmed(r)
    ensures Tokens(r) == Tokens(c)
  {
    assert Trimmed(r);
    TokensStrip(c);
    StripIsSlice(c);
  }

  // ---------------------------------------------------------------------------
  // worker_thread

  /** The environment variables the worker reads, and whether `openai` imported. */
  datatype Env = Env(openaiKey: Option<string>, openaiInstalled: bool,
                     googleKey: Option<string>, googleCx: Option<string>)

  /** Python truthiness of an optional string: present and non-empty. */
  predicate Truthy(o: Option<string>)
  {
    o.Some? && o.value != ""
  }

  /** Both Google credentials are set (`if gkey and gcx`). */
  predicate SearchConfigured(env: Env)
  {
    Truthy(env.googleKey) && Truthy(env.googleCx)
  }

  /** The text path asks the language model (`use_openai and api_key and openai is not None`). */
  predicate AiReady(useOpenai: bool, env: Env)
  {
    useOpenai && Truthy(env.openaiKey) && env.openaiInstalled
  }

  /** Downloading the found image and writing it to a file: the path written, or a fault. */
  datatype Download = Saved(path: string) | DownloadFailed

  /** The Google Images page the browser is sent to. */
  function ImagesUrl(q: string): string
  {
    "https://www.google.com/search?tbm=isch&q=" + Quote.Quote(q)
  }

  function BrowserNotice(q: string): string
  {
    "Opened browser for images: " + q
  }

  function FoundCaption(q: string): string
  {
    "Found image for \"" + q + "\""
  }

  /**
   * What one run of the worker does: the page it opens in the browser (if any),
   * whether it called the image search and the language model, and the one
   * value it puts on the queue.
   */
  datatype Run = Run(browser: Option<string>, searched: bool, calledAi: bool, value: Value)

  /**
   * `worker_thread(prompt, use_openai)`. The environment, the search result
   * `link`, the download and the language-model outcome are inputs; `now` is
   * the clock the local time answer reads.
   */
  function Worker(prompt: string, useOpenai: bool, env: Env, now: string,
                  link: Option<string>, download: Download, ai: AiOutcome): Run
  {
    var apiKey := if useOpenai then env.openaiKey else None;
    var local := LocalResponder(prompt);
    if local.Directive? && !SearchConfigured(env) then
      Run(Some(ImagesUrl(local.query)), false, false, Str(BrowserNotice(local.query)))
    else if local.Directive? && Truthy(link) then
      match download
      case Saved(path) => Run(None, true, false, ImageFound(FoundCaption(local.query), path))
      case DownloadFailed => Run(Some(ImagesUrl(local.query)), true, false, Str(BrowserNotice(local.query)))
    else
      var searched := local.Directive?;
      if useOpenai && Truthy(apiKey) && env.openaiInstalled then
        Run(None, searched, true, Str(CallOpenAI(env.openaiInstalled, apiKey, ai)))
      else
        Run(None, searched, false,
            match local
            case Reply(a) => Str(AnswerText(a, now))
            case Directive(q) => ImageDirective(q))
  }

  /**
   * The routing of one worker run, case by case: a directive without search
   * credentials opens the browser; with credentials and a link the download
   * decides; with credentials and no link the run falls through to the text
   * path, which puts the directive itself on the queue unless the language
   * model is ready; any other prompt gets the model's answer or the local one.
   */
  lemma WorkerRouting(prompt: string, useOpenai: bool, env: Env, now: string,
                      link: Option<string>, download: Download, ai: AiOutcome)
    ensures IsImageDirective(prompt) && !SearchConfigured(env) ==>
      var q := DirectiveQuery(prompt);
      Worker(prompt, useOpenai, env, now, link, download, ai) == Run(Some(ImagesUrl(q)), false, false, Str(BrowserNotice(q)))
    ensures IsImageDirective(prompt) && SearchConfigured(env) && Truthy(link) ==>
      var q := DirectiveQuery(prompt);
      Worker(prompt, useOpenai, env, now, link, download, ai) == match download
           case Saved(path) => Run(None, true, false, ImageFound(FoundCaption(q), path))
           case DownloadFailed => Run(Some(ImagesUrl(q)), true, false, Str(BrowserNotice(q)))
    ensures IsImageDirective(prompt) && SearchConfigured(env) && !Truthy(link) ==>
      Worker(prompt, useOpenai, env, now, link, download, ai) == Run(None, true, AiReady(useOpenai, env),
               if AiReady(useOpenai, env) then Str(AiText(ai)) else ImageDirective(DirectiveQuery(prompt)))
    ensures !IsImageDirective(prompt) ==>
      Worker(prompt, useOpenai, env, now, link, download, ai) == Run(None, false, AiReady(useOpenai, env),
               Str(if AiReady(useOpenai, env) then AiText(ai)
                   else AnswerText(FirstRule(Normalized(prompt), Rules), now)))
  {
    var local := LocalResponder(prompt);
  }

  /**
   * Whenever the worker calls the language model, both guards of `call_openai`
   * have already passed: the queue gets the model's text, never a guard message.
   */
  lemma WorkerAiGuardsPass(prompt: string, useOpenai: bool, env: Env, now: string,
                           link: Option<string>, download: Download, ai: AiOutcome)
    requires Worker(prompt, useOpenai, env, now, link, download, ai).calledAi
    ensures Worker(prompt, useOpenai, env, now, link, download, ai).value == Str(AiText(ai))
    ensures CallOpenAI(env.openaiInstalled, if useOpenai then env.openaiKey else None, ai) == AiText(ai)
  {
    WorkerRouting(prompt, useOpenai, env, now, link, download, ai);
  }

  /** The browser is opened only for an image directive, and then nothing asks the language model. */
  lemma WorkerBrowserOnlyForImages(prompt: string, useOpenai: bool, env: Env, now: string,
                                   link: Option<string>, download: Download, ai: AiOutcome)
    ensures Worker(prompt, useOpenai, env, now, link, download, ai).browser.Some? ==>
      IsImageDirective(prompt) && !Worker(prompt, useOpenai, env, now, link, download, ai).calledAi
      && Worker(prompt, useOpenai, env, now, link, download, ai).value == Str(BrowserNotice(DirectiveQuery(prompt)))
  {
    WorkerRouting(prompt, useOpenai, env, now, link, download, ai);
  }
}
