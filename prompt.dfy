/** How `receive_prompt` reads a user's message: a topic, optionally
    followed by a comma and a duration in seconds ("Три лайфхака, 60"). */
module Prompt {
  import opened Wrappers
  import opened Text

  const DefaultDuration := 60
  const MinDuration := 10
  /** `8*60`: eight minutes. */
  const MaxDuration := 480

  datatype Request = Request(prompt: string, duration: int)

  /** `max(10, min(8*60, n))`. */
  function ClampDuration(n: int): (d: int)
    ensures MinDuration <= d <= MaxDuration
    ensures MinDuration <= n <= MaxDuration ==> d == n
    ensures n < MinDuration ==> d == MinDuration
    ensures n > MaxDuration ==> d == MaxDuration
  {
    if n > MaxDuration then MaxDuration else if n < MinDuration then MinDuration else n
  }

  /** The topic and duration of a message. The message is stripped; if it
      has a comma and the stripped part after the LAST comma is all digits,
      that number (clamped) is the duration and the stripped part before the
      comma is the topic; otherwise the whole stripped message is the topic
      and the duration is 60 seconds. */
  function ParsePrompt(message: string): (r: Request)
    ensures MinDuration <= r.duration <= MaxDuration
    ensures ',' !in Strip(message) ==> r == Request(Strip(message), DefaultDuration)
  {
    var text := Strip(message);
    match LastIndexOf(text, ',')
    case None => Request(text, DefaultDuration)
    case Some(k) =>
      var tail := Strip(text[k + 1..]);
      if IsDigits(tail) then Request(Strip(text[..k]), ClampDuration(ParseNat(tail)))
      else Request(text, DefaultDuration)
  }

  /** With `k` the position of the last comma of the stripped message: a
      digits-only tail gives the duration and the topic before the comma, any
      other tail leaves the whole stripped message as the topic. */
  lemma ParsePromptAtLastComma(message: string, k: nat)
    requires k < |Strip(message)| && Strip(message)[k] == ','
    requires ',' !in Strip(message)[k + 1..]
    ensures var text := Strip(message);
      var tail := Strip(text[k + 1..]);
      ParsePrompt(message)
        == if IsDigits(tail) then Request(Strip(text[..k]), ClampDuration(ParseNat(tail)))
           else Request(text, DefaultDuration)
  {
    assert LastIndexOf(Strip(message), ',') == Some(k);
  }

  lemma StripSpaceDigits(digits: string)
    requires IsDigits(digits)
    ensures Strip(" " + digits) == digits
  {
    LStripAppend(" ", digits);
    assert IsSpace(' ') && " "[1..] == [];
    assert LStrip(" ") == LStrip([]);
    assert IsDigit(digits[|digits| - 1]);
  }

  lemma StripTopicDigits(topic: string, digits: string)
    requires IsDigits(digits)
    ensures Strip(topic + ", " + digits) == LStrip(topic) + ", " + digits
  {
    var rest := ", " + digits;
    assert topic + ", " + digits == topic + rest;
    LStripAppend(topic, rest);
    var text := LStrip(topic) + rest;
    assert text[|text| - 1] == digits[|digits| - 1];
    assert IsDigit(text[|text| - 1]);
    assert !IsSpace(text[|text| - 1]);
    assert RStrip(text) == text;
    assert LStrip(topic) + ", " + digits == text;
  }

  lemma DigitsTail(front: string, digits: string)
    requires IsDigits(digits)
    ensures var text := front + ", " + digits;
      && text[|front|] == ','
      && text[|front| + 1..] == " " + digits
      && ',' !in text[|front| + 1..]
      && text[..|front|] == front
  {
    var text := front + ", " + digits;
    assert text[|front| + 1..] == " " + digits;
    forall i | 0 <= i < |digits| ensures digits[i] != ',' {
      assert IsDigit(digits[i]);
    }
  }

  /** A topic, a comma and a run of digits read back as the stripped topic
      and the clamped number. */
  lemma ParsePromptTopicDigits(topic: string, digits: string)
    requires IsDigits(digits)
    ensures ParsePrompt(topic + ", " + digits) == Request(Strip(topic), ClampDuration(ParseNat(digits)))
  {
    var message := topic + ", " + digits;
    var front := LStrip(topic);
    StripTopicDigits(topic, digits);
    DigitsTail(front, digits);
    ParsePromptAtLastComma(message, |front|);
    StripSpaceDigits(digits);
    StripAfterLStrip(topic);
  }

  /** A message written as the help text suggests, "<topic>, <seconds>",
      reads back as the stripped topic and the clamped number of seconds. */
  lemma ParsePromptRoundTrip(topic: string, seconds: nat)
    ensures ParsePrompt(topic + ", " + NatToString(seconds))
      == Request(Strip(topic), ClampDuration(seconds))
  {
    ParsePromptTopicDigits(topic, NatToString(seconds));
    ParseNatToString(seconds);
  }
}
