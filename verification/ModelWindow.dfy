/**
  The token window of a model and the budgets drawn from it
  (internal/app/provider_resolve.go).  In a limit, 0 stands for "not known".
 */
module ModelWindow {
  import opened Basics

  const DEFAULT_OUTPUT: int := 8192
  const SAFETY: int := 2048
  const VISIBLE_FLOOR: int := 1024
  const DEFAULT_PROMPT: int := 32000

  datatype Entry = Entry(window: int, output: int, thinking: int)

  // What a provider's list publishes of a model, and what the model is declared able to do.
  datatype Limits = Limits(window: int, output: int)

  datatype Source = Declared | Derived | Fallback

  datatype Refusal = NegativeLimits | NoRoomForAPrompt

  // A published output that would leave the window no prompt is not believed.
  function Discovered(m: Limits, e: Entry): Limits {
    var known := if e.window == 0 then m.window else e.window;
    if m.output > 0 && known > 0 && m.output + SAFETY >= known then m.(output := 0) else m
  }

  function Filled(e: Entry, meta: Option<Limits>): Entry {
    if (e.window != 0 && e.output != 0) || meta.None? then e
    else
      var d := Discovered(meta.value, e);
      e.(window := if e.window == 0 then d.window else e.window,
         output := if e.output == 0 then d.output else e.output)
  }

  function LimitWindow(e: Entry, cap: Option<Limits>): Entry {
    if cap.None? || cap.value.window <= 0 || 0 < e.window <= cap.value.window then e
    else e.(window := cap.value.window)
  }

  function LimitOutput(e: Entry, cap: Option<Limits>): Entry {
    if cap.Some? && 0 < cap.value.output < e.output then e.(output := cap.value.output) else e
  }

  function Validate(e: Entry): Option<Refusal> {
    if e.window < 0 || e.output < 0 || e.thinking < 0 then Some(NegativeLimits)
    else if e.window == 0 then None
    else
      var reserve := if e.output == 0 then DEFAULT_OUTPUT else e.output;
      if e.window <= reserve + SAFETY then Some(NoRoomForAPrompt) else None
  }

  function Allocate(e: Entry): Entry {
    var e := if e.output <= 0 then e.(output := DEFAULT_OUTPUT) else e;
    if e.thinking <= 0 || e.output - e.thinking >= VISIBLE_FLOOR then e
    else e.(thinking := Max(e.output - VISIBLE_FLOOR, 0))
  }

  function Resolve(e: Entry, meta: Option<Limits>, cap: Option<Limits>): Result<Entry, Refusal> {
    var limited := LimitOutput(LimitWindow(Filled(e, meta), cap), cap);
    match Validate(limited)
    case Some(why) => Err(why)
    case None => Ok(Allocate(limited))
  }

  // What the window leaves a prompt, where that is known and positive.
  function Room(e: Entry): int {
    e.window - (if e.output <= 0 then DEFAULT_OUTPUT else e.output) - SAFETY
  }

  function PromptBudget(e: Entry, limit: int): (int, Source) {
    if e.window > 0 && Room(e) > 0 && (limit == 0 || Room(e) < limit) then (Room(e), Derived)
    else if limit == 0 then (DEFAULT_PROMPT, Fallback)
    else (limit, Declared)
  }

  function FacilityBudget(e: Entry, conversation: int, source: Source): (int, Source) {
    if e.window > 0 && Room(e) > 0 then (Room(e), Derived) else (conversation, source)
  }

  /** With a known window the parts of a call fit it together: a prompt of at least one token, the
      whole output and the margin.  The prompt budget is positive exactly when the configured limit
      is not negative, a limit below zero being passed on as it is. */
  lemma PartsFitTheWindow(e: Entry, meta: Option<Limits>, cap: Option<Limits>, limit: int)
    requires Resolve(e, meta, cap).Ok? && Resolve(e, meta, cap).value.window > 0
    ensures var r := Resolve(e, meta, cap).value;
      var (prompt, source) := PromptBudget(r, limit);
      var (facility, origin) := FacilityBudget(r, prompt, source);
      && (prompt >= 1 <==> limit >= 0)
      && prompt + r.output + SAFETY <= r.window
      && prompt <= facility && facility >= 1 && facility + r.output + SAFETY == r.window && origin == Derived
      && (source == Derived <==> limit == 0 || prompt < limit)
      && (source != Derived ==> source == Declared && prompt == limit)
  {
  }

  /** Thinking never takes the room of the answer. */
  lemma ThinkingLeavesAnAnswer(e: Entry, meta: Option<Limits>, cap: Option<Limits>)
    requires Resolve(e, meta, cap).Ok?
    ensures var r := Resolve(e, meta, cap).value;
      && r.output >= 1 && 0 <= r.thinking <= Max(e.thinking, 0)
      && (r.thinking == 0 || r.output - r.thinking >= VISIBLE_FLOOR)
      && (r.thinking < e.thinking ==> r.thinking == Max(r.output - VISIBLE_FLOOR, 0))
  {
  }

  // The limits in force, said without the steps: the entry's own, then the published, then the
  // declared ones as a ceiling.
  function FirstKnown(own: int, published: int): int {
    if own != 0 then own else published
  }

  function Ceiled(v: int, cap: int, whenUnknown: bool): int {
    if cap <= 0 then v else if v > cap || (whenUnknown && v <= 0) then cap else v
  }

  function WindowInForce(e: Entry, meta: Option<Limits>, cap: Option<Limits>): int {
    Ceiled(FirstKnown(e.window, if meta.Some? then meta.value.window else 0),
           if cap.Some? then cap.value.window else 0, true)
  }

  // A published output is believed only where the window it came with leaves it room.
  function OutputInForce(e: Entry, meta: Option<Limits>, cap: Option<Limits>): int {
    var published := if meta.Some? then meta.value.output else 0;
    var known := FirstKnown(e.window, if meta.Some? then meta.value.window else 0);
    var believed := if 0 < known <= published + SAFETY && published > 0 then 0 else published;
    Ceiled(FirstKnown(e.output, believed), if cap.Some? then cap.value.output else 0, false)
  }

  /** Resolution admits an entry exactly when none of the limits in force is negative and a known
      window leaves a prompt beside the output; what it resolves to are those limits. */
  lemma AdmittedIff(e: Entry, meta: Option<Limits>, cap: Option<Limits>)
    ensures var w, o := WindowInForce(e, meta, cap), OutputInForce(e, meta, cap);
      var output := if o == 0 then DEFAULT_OUTPUT else o;
      && (Resolve(e, meta, cap).Ok? <==>
          w >= 0 && o >= 0 && e.thinking >= 0 && (w == 0 || output + SAFETY < w))
      && (Resolve(e, meta, cap).Ok? ==> Resolve(e, meta, cap).value.window == w && Resolve(e, meta, cap).value.output == output)
  {
  }

  /** A list that publishes a window with room for the default output never makes an entry
      without limits of its own unusable, whatever output it publishes. */
  lemma PublishedWindowIsUsable(e: Entry, m: Limits)
    requires e.window == 0 && e.output == 0 && e.thinking >= 0 && m.output >= 0
    requires m.window > DEFAULT_OUTPUT + SAFETY
    ensures Resolve(e, Some(m), None).Ok?
    ensures PromptBudget(Resolve(e, Some(m), None).value, 0).1 == Derived
  {
  }

  /** With no window known the prompt budget is the configured limit, or 32,000 tokens where none is
      configured, and a facility's is the conversation's. */
  lemma WithoutAWindow(e: Entry, meta: Option<Limits>, cap: Option<Limits>, limit: int)
    requires Resolve(e, meta, cap).Ok? && Resolve(e, meta, cap).value.window == 0
    ensures var r := Resolve(e, meta, cap).value;
      && PromptBudget(r, limit) == (if limit == 0 then (32000, Fallback) else (limit, Declared))
      && forall b, source :: FacilityBudget(r, b, source) == (b, source)
  {
  }

  /** A refusal says why: negative limits come before a window too small for a prompt. */
  lemma RefusedFor(e: Entry, meta: Option<Limits>, cap: Option<Limits>)
    ensures Resolve(e, meta, cap) == Err(NegativeLimits) <==>
      WindowInForce(e, meta, cap) < 0 || OutputInForce(e, meta, cap) < 0 || e.thinking < 0
    ensures Resolve(e, meta, cap) == Err(NoRoomForAPrompt) <==>
      && WindowInForce(e, meta, cap) > 0 && OutputInForce(e, meta, cap) >= 0 && e.thinking >= 0
      && WindowInForce(e, meta, cap) <= (if OutputInForce(e, meta, cap) == 0 then 8192 else OutputInForce(e, meta, cap)) + 2048
  {
  }
}
