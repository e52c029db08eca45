/** The script stage (`generate_script`): the text of the model-based
    generator when it answers, otherwise the local five-scene template. */
module Script {
  import opened Wrappers
  import opened Text

  /** Share of the duration given to each of the five scenes, in percent
      (the float portions 0.08, 0.25, 0.45, 0.12 and 0.10). */
  const Portions: seq<int> := [8, 25, 45, 12, 10]

  /** No scene of the template is given less than this many seconds. */
  const MinSceneSeconds := 2

  function Max(a: int, b: int): int {
    if a < b then b else a
  }

  function Sum(s: seq<int>): int {
    if s == [] then 0 else s[0] + Sum(s[1..])
  }

  /** `int(a / 100)`: division by one hundred, truncated toward zero as
      Python's `int` of a float does. */
  function Hundredths(a: int): (q: int)
    ensures a >= 0 ==> 0 <= 100 * q <= a < 100 * q + 100
    ensures a < 0 ==> 100 * q - 100 < a <= 100 * q <= 0
  {
    if a >= 0 then a / 100 else -((-a) / 100)
  }

  /** The seconds of scene `i` before the rounding difference is folded in:
      `max(2, int(total * p))`. */
  function Share(total: int, i: nat): int
    requires i < 5
  {
    Max(MinSceneSeconds, Hundredths(total * Portions[i]))
  }

  /** The list comprehension `[max(2, int(total * p)) for p in portions]`. */
  function InitialSeconds(total: int): (s: seq<int>)
    ensures |s| == 5
    ensures forall i :: 0 <= i < 5 ==> s[i] >= MinSceneSeconds
  {
    seq(5, i requires 0 <= i < 5 => Share(total, i))
  }

  lemma SumOfFive(s: seq<int>)
    requires |s| == 5
    ensures Sum(s) == s[0] + s[1] + s[2] + s[3] + s[4]
  {
    assert Sum(s[4..]) == s[4] + Sum(s[5..]);
    assert Sum(s[3..]) == s[3] + Sum(s[4..]);
    assert Sum(s[2..]) == s[2] + Sum(s[3..]);
    assert Sum(s[1..]) == s[1] + Sum(s[2..]);
  }

  /** The seconds of the five scenes after `seconds[2] += diff`: every scene
      but the middle one keeps its share, and the scenes add up to exactly
      the requested duration. */
  function SceneSeconds(total: int): (s: seq<int>)
    ensures |s| == 5
    ensures Sum(s) == total
    ensures forall i :: 0 <= i < 5 && i != 2 ==> s[i] == Share(total, i)
  {
    var init := InitialSeconds(total);
    var s := init[2 := init[2] + (total - Sum(init))];
    SumOfFive(init);
    SumOfFive(s);
    s
  }

  /** For every duration the bot accepts (at least 10 seconds) every scene,
      the middle one included, lasts at least two seconds. */
  lemma SceneSecondsAtLeastTwo(total: int)
    requires total >= 10
    ensures forall i :: 0 <= i < 5 ==> SceneSeconds(total)[i] >= MinSceneSeconds
  {
    var s := SceneSeconds(total);
    SumOfFive(s);
    var a, b, d, e := Share(total, 0), Share(total, 1), Share(total, 3), Share(total, 4);
    if total >= 25 {
      assert 100 * a <= 8 * total && 100 * b <= 25 * total;
      assert 100 * d <= 12 * total && 100 * e <= 10 * total;
    } else {
      assert a == 2 && d == 2 && e == 2;
      assert 100 * b <= 25 * total;
    }
  }

  /** The template for a 45-second video: 3, 11, 22, 5 and 4 seconds. */
  lemma SceneSecondsOf45()
    ensures SceneSeconds(45) == [3, 11, 22, 5, 4]
  {
    assert InitialSeconds(45) == [3, 11, 20, 5, 4];
    SumOfFive(InitialSeconds(45));
  }

  /** `prompt.strip().rstrip(".!?")`: the topic quoted in the first scene. */
  function Topic(prompt: string): (t: string)
    ensures t == [] || t[|t| - 1] !in {'.', '!', '?'}
  {
    RStripChars(Strip(prompt), {'.', '!', '?'})
  }

  /** The five scene descriptions; only the first one depends on the prompt. */
  function Bullets(prompt: string): (b: seq<string>)
    ensures |b| == 5
  {
    [ "Вступление — кратко о теме: «" + Topic(prompt) + "».",
      "Ключевая идея / демонстрация примера.",
      "3 практических шага или совета.",
      "Дополнительные лайфхаки и предупреждения.",
      "Заключение и призыв к действию (подписка, лайк, комментарий)." ]
  }

  /** `f"Сцена {n} ({seconds}s): {bullet}"`. */
  function SceneLine(n: nat, seconds: int, bullet: string): string {
    "Сцена " + NatToString(n) + " (" + IntToString(seconds) + "s): " + bullet
  }

  function SceneLines(prompt: string, duration: int): (ls: seq<string>)
    ensures |ls| == 5
  {
    seq(5, i requires 0 <= i < 5 => SceneLine(i + 1, SceneSeconds(duration)[i], Bullets(prompt)[i]))
  }

  /** The text of the local template: its scene lines joined by blank lines. */
  function FallbackScript(prompt: string, duration: int): string {
    Join(SceneLines(prompt, duration), "\n\n")
  }

  lemma {:induction false} JoinFive(ls: seq<string>, sep: string)
    requires |ls| == 5
    ensures Join(ls, sep) == ls[0] + sep + ls[1] + sep + ls[2] + sep + ls[3] + sep + ls[4]
  {
    assert ls[3..][1..] == [ls[4]];
    assert Join(ls[3..], sep) == ls[3] + sep + ls[4];
    assert ls[2..][1..] == ls[3..];
    assert Join(ls[2..], sep) == ls[2] + sep + Join(ls[3..], sep);
    assert ls[1..][1..] == ls[2..];
    assert Join(ls[1..], sep) == ls[1] + sep + Join(ls[2..], sep);
  }

  /** The template is exactly five lines "Сцена 1 (…s): …" to "Сцена 5 (…s): …",
      in that order, separated by "\n\n"; line i carries the seconds of scene i. */
  lemma FallbackScriptLayout(prompt: string, duration: int)
    ensures var ls := SceneLines(prompt, duration);
      FallbackScript(prompt, duration)
        == ls[0] + "\n\n" + ls[1] + "\n\n" + ls[2] + "\n\n" + ls[3] + "\n\n" + ls[4]
    ensures forall i :: 0 <= i < 5 ==>
      (SceneLines(prompt, duration)[i]
        == "Сцена " + [('1' as int + i) as char] + " (" + IntToString(SceneSeconds(duration)[i]) + "s): " + Bullets(prompt)[i])
  {
    JoinFive(SceneLines(prompt, duration), "\n\n");
    forall n: nat | 1 <= n <= 5
      ensures NatToString(n) == [('0' as int + n) as char]
    {
      NatToStringSmall(n);
    }
  }

  /** The local fallback of `generate_script`: the seconds are computed,
      the middle scene absorbs the rounding difference in place, and the
      lines are appended one scene at a time. */
  method LocalScript(prompt: string, duration: int) returns (text: string)
    ensures text == FallbackScript(prompt, duration)
  {
    var bullets := Bullets(prompt);
    var seconds := InitialSeconds(duration);
    var diff := duration - Sum(seconds);
    seconds := seconds[2 := seconds[2] + diff];
    assert seconds == SceneSeconds(duration);
    var lines: seq<string> := [];
    for i := 0 to 5
      invariant lines == SceneLines(prompt, duration)[..i]
    {
      lines := lines + [SceneLine(i + 1, seconds[i], bullets[i])];
    }
    assert lines == SceneLines(prompt, duration);
    text := Join(lines, "\n\n");
  }

  /** What the script stage produces: the stripped answer of the model-based
      generator when there is one (`reply` is None when no key is configured,
      the library is missing or the call raised), the template otherwise. */
  function ScriptText(prompt: string, duration: int, reply: Option<string>): string {
    match reply
    case Some(answer) => Strip(answer)
    case None => FallbackScript(prompt, duration)
  }

  /** `generate_script`: never fails, since every failure of the model-based
      generator falls back to the template. */
  method GenerateScript(prompt: string, duration: int, reply: Option<string>) returns (text: string)
    ensures text == ScriptText(prompt, duration, reply)
    ensures reply.None? ==> text == FallbackScript(prompt, duration)
  {
    if reply.Some? {
      text := Strip(reply.value);
      return;
    }
    text := LocalScript(prompt, duration);
  }
}
