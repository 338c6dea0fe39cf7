/**
The CPU figures of `src/server/status.rs`: parsing the process line of `/proc/self/stat` and the host line of
`/proc/stat`, and the sampler that turns two readings into a percentage. Percentages are exact here, not rounded
doubles.
*/
module StatusParse {
  import opened Wrappers

  const U64_MAX: nat := 0xFFFF_FFFF_FFFF_FFFF

  const U32_MAX: nat := 0xFFFF_FFFF

  function SaturatingAdd(a: nat, b: nat): nat {
    if a + b > U64_MAX then U64_MAX else a + b
  }

  function SaturatingSub(a: nat, b: nat): nat {
    if a < b then 0 else a - b
  }

  // ----- Numbers -----

  function DigitValue(c: char): nat
    requires '0' <= c <= '9'
  {
    c as int - '0' as int
  }

  /** The digits so far stand for `value`; `None` on a character that is no digit and when the value no longer fits. */
  function ParseDigits(s: string, value: nat): Option<nat> {
    if s == "" then Some(value)
    else if !('0' <= s[0] <= '9') then None
    else
      var next := 10 * value + DigitValue(s[0]);
      if next > U64_MAX then None else ParseDigits(s[1..], next)
  }

  /** `str::parse::<u64>`: an optional plus sign and at least one digit. */
  function ParseU64(s: string): Option<nat> {
    var digits := if s != "" && s[0] == '+' then s[1..] else s;
    if digits == "" then None else ParseDigits(digits, 0)
  }

  function DigitOf(d: nat): char
    requires d < 10
  {
    ('0' as int + d) as char
  }

  function Render(n: nat): string {
    if n < 10 then [DigitOf(n)] else Render(n / 10) + [DigitOf(n % 10)]
  }

  predicate AllDigits(s: string) {
    s == "" || ('0' <= s[0] <= '9' && AllDigits(s[1..]))
  }

  /** What the digits stand for when they follow digits that stand for `before`. */
  function ValueAfter(before: nat, s: string): nat
    requires AllDigits(s)
    decreases |s|
  {
    if s == "" then before else ValueAfter(10 * before + DigitValue(s[0]), s[1..])
  }

  /** One more digit at the end: ten times the value, plus the digit. */
  lemma {:induction false} ValueSnoc(before: nat, s: string, c: char)
    requires AllDigits(s) && '0' <= c <= '9'
    ensures AllDigits(s + [c]) && ValueAfter(before, s + [c]) == 10 * ValueAfter(before, s) + DigitValue(c)
    decreases |s|
  {
    if s == "" {
      assert s + [c] == [c] && [c][1..] == "";
      assert ValueAfter(before, [c]) == ValueAfter(10 * before + DigitValue(c), "");
    } else {
      var (rest, next) := (s[1..], 10 * before + DigitValue(s[0]));
      ValueSnoc(next, rest, c);
      assert (s + [c])[0] == s[0] && (s + [c])[1..] == rest + [c];
    }
  }

  lemma {:induction false} ValueGrows(before: nat, s: string)
    requires AllDigits(s)
    ensures before <= ValueAfter(before, s)
    decreases |s|
  {
    if s != "" {
      ValueGrows(10 * before + DigitValue(s[0]), s[1..]);
    }
  }

  /** Parsing succeeds exactly on digit strings whose value fits, and gives that value. */
  lemma {:induction false} ParseDigitsExactly(s: string, before: nat)
    requires before <= U64_MAX
    ensures ParseDigits(s, before).Some? <==> AllDigits(s) && ValueAfter(before, s) <= U64_MAX
    ensures ParseDigits(s, before).Some? ==> ParseDigits(s, before) == Some(ValueAfter(before, s))
  {
    if s != "" && '0' <= s[0] <= '9' {
      var (rest, next) := (s[1..], 10 * before + DigitValue(s[0]));
      if next <= U64_MAX {
        ParseDigitsExactly(rest, next);
      } else if AllDigits(rest) {
        ValueGrows(next, rest);
      }
    }
  }

  lemma {:induction false} RenderIsDigits(n: nat)
    ensures Render(n) != "" && AllDigits(Render(n)) && ValueAfter(0, Render(n)) == n
  {
    if n >= 10 {
      RenderIsDigits(n / 10);
      assert DigitValue(DigitOf(n % 10)) == n % 10;
      ValueSnoc(0, Render(n / 10), DigitOf(n % 10));
    } else {
      var s := [DigitOf(n)];
      assert s[1..] == "" && DigitValue(s[0]) == n;
      assert AllDigits(s[1..]) && ValueAfter(n, s[1..]) == n;
    }
  }

  lemma ParseRendered(n: nat)
    requires n <= U64_MAX
    ensures ParseU64(Render(n)) == Some(n)
  {
    RenderIsDigits(n);
    ParseDigitsExactly(Render(n), 0);
  }

  // ----- Lines -----

  /** The characters with Unicode property White_Space. */
  predicate IsSpace(c: char) {
    || '\U{9}' <= c <= '\U{D}' || c == ' ' || c == '\U{85}' || c == '\U{A0}' || c == '\U{1680}'
    || '\U{2000}' <= c <= '\U{200A}' || c == '\U{2028}' || c == '\U{2029}' || c == '\U{202F}' || c == '\U{205F}'
       || c == '\U{3000}'
  }

  function Begun(current: string): seq<string> {
    if current == "" then [] else [current]
  }

  /** `split_whitespace`, with the word `current` begun. */
  function Words(s: string, current: string): seq<string> {
    if s == "" then Begun(current)
    else if IsSpace(s[0]) then Begun(current) + Words(s[1..], "")
    else Words(s[1..], current + [s[0]])
  }

  predicate IsWord(s: string) {
    s != "" && forall c | c in s :: !IsSpace(c)
  }

  /** The text after the last closing parenthesis. */
  function AfterLastParen(s: string): Option<string> {
    if s == "" then None
    else if s[|s| - 1] == ')' then Some("")
    else
      match AfterLastParen(s[..|s| - 1])
      case None => None
      case Some(rest) => Some(rest + [s[|s| - 1]])
  }

  function NumberAt(fields: seq<string>, i: nat): Option<nat> {
    if i < |fields| then ParseU64(fields[i]) else None
  }

  /** Fields 14 and 15 of the line: the twelfth and thirteenth word after the process name. */
  function ParseProcessCpuTicks(stat: string): Option<nat> {
    match AfterLastParen(stat)
    case None => None
    case Some(rest) =>
      var fields := Words(rest, "");
      match (NumberAt(fields, 11), NumberAt(fields, 12))
      case (Some(utime), Some(stime)) => Some(SaturatingAdd(utime, stime))
      case _ => None
  }

  /** Words separated by single spaces, each preceded by one. */
  function Spaced(words: seq<string>): string {
    if words == [] then "" else " " + words[0] + Spaced(words[1..])
  }

  /** The line the kernel writes: pid, the process name in parentheses, the fields from the state on. */
  function StatLine(pid: string, comm: string, fields: seq<string>): string {
    pid + " (" + comm + ")" + Spaced(fields)
  }

  lemma {:induction false} WordsOfWord(word: string, rest: string, current: string)
    requires IsWord(word) || word == ""
    ensures Words(word + rest, current) == Words(rest, current + word)
    decreases |word|
  {
    if word == "" {
      assert word + rest == rest && current + word == current;
    } else {
      assert (word + rest)[0] == word[0] && (word + rest)[1..] == word[1..] + rest;
      assert word[0] in word && forall c | c in word[1..] :: c in word;
      assert current + [word[0]] + word[1..] == current + word;
      WordsOfWord(word[1..], rest, current + [word[0]]);
    }
  }

  lemma WordsOfTail(tail: string, current: string)
    requires tail == "" || IsSpace(tail[0])
    ensures Words(tail, current) == Begun(current) + Words(tail, "")
  {
    if tail != "" {
      assert Words(tail, "") == [] + Words(tail[1..], "");
    }
  }

  lemma WordsOfNext(word: string, rest: string, current: string)
    requires IsWord(word)
    ensures Words(" " + word + rest, current) == Begun(current) + Words(rest, word)
  {
    var s := " " + word + rest;
    assert s[0] == ' ' && s[1..] == word + rest;
    WordsOfWord(word, rest, "");
    assert "" + word == word;
  }

  lemma SpacedFirst(words: seq<string>, tail: string)
    requires words != []
    ensures Spaced(words) + tail == " " + words[0] + (Spaced(words[1..]) + tail)
  {
  }

  lemma Cons(words: seq<string>, more: seq<string>)
    requires words != []
    ensures [words[0]] + (words[1..] + more) == words + more
  {
  }

  lemma {:induction false} WordsOfSpaced(words: seq<string>, tail: string, current: string)
    requires forall w | w in words :: IsWord(w)
    requires tail == "" || IsSpace(tail[0])
    ensures Words(Spaced(words) + tail, current) == Begun(current) + (words + Words(tail, ""))
    decreases |words|
  {
    if words == [] {
      assert Spaced(words) + tail == tail && words + Words(tail, "") == Words(tail, "");
      WordsOfTail(tail, current);
    } else {
      var (word, more) := (words[0], words[1..]);
      assert word in words && forall w | w in more :: w in words;
      SpacedFirst(words, tail);
      WordsOfNext(word, Spaced(more) + tail, current);
      WordsOfSpaced(more, tail, word);
      Cons(words, Words(tail, ""));
    }
  }

  lemma {:induction false} AfterParenOf(before: string, rest: string)
    requires ')' !in rest
    ensures AfterLastParen(before + ")" + rest) == Some(rest)
    decreases |rest|
  {
    var s := before + ")" + rest;
    if rest != "" {
      var init := rest[..|rest| - 1];
      assert s[..|s| - 1] == before + ")" + init && s[|s| - 1] == rest[|rest| - 1];
      assert rest[|rest| - 1] in rest && forall c | c in init :: c in rest;
      AfterParenOf(before, init);
      assert init + [rest[|rest| - 1]] == rest;
    }
  }

  lemma {:induction false} SpacedHas(words: seq<string>)
    requires forall w | w in words :: ')' !in w
    ensures ')' !in Spaced(words)
  {
    if words != [] {
      assert words[0] in words && forall w | w in words[1..] :: w in words;
      SpacedHas(words[1..]);
    }
  }

  /**
  Parsing inverts rendering: whatever the process is called, parentheses and spaces included, the two CPU times come
  back from the line, summed and saturated at 64 bits.
  */
  lemma ParsesRenderedLine(pid: string, comm: string, before: seq<string>, utime: nat, stime: nat, after: seq<string>,
    end: string)
    requires |before| == 11 && utime <= U64_MAX && stime <= U64_MAX && (end == "" || end == "\n")
    requires forall w | w in before + after :: IsWord(w) && ')' !in w
    ensures var fields := before + [Render(utime), Render(stime)] + after;
            ParseProcessCpuTicks(StatLine(pid, comm, fields) + end) == Some(SaturatingAdd(utime, stime))
  {
    var fields := before + [Render(utime), Render(stime)] + after;
    var (head, rest) := (pid + " (" + comm, Spaced(fields) + end);
    RenderedFields(before, utime, stime, after);
    FieldsComeBack(fields, end);
    assert StatLine(pid, comm, fields) + end == head + ")" + rest;
    ProcessLinesExactly(head, rest);
    ParseRendered(utime);
    ParseRendered(stime);
  }

  lemma RenderedFields(before: seq<string>, utime: nat, stime: nat, after: seq<string>)
    requires |before| == 11 && forall w | w in before + after :: IsWord(w) && ')' !in w
    ensures var fields := before + [Render(utime), Render(stime)] + after;
            && (forall w | w in fields :: IsWord(w) && ')' !in w)
            && |fields| >= 13 && fields[11] == Render(utime) && fields[12] == Render(stime)
  {
    var fields := before + [Render(utime), Render(stime)] + after;
    RenderedIsWord(utime);
    RenderedIsWord(stime);
    forall w | w in fields ensures IsWord(w) && ')' !in w {
      assert w in before + after || w == Render(utime) || w == Render(stime);
    }
  }

  lemma FieldsComeBack(fields: seq<string>, end: string)
    requires forall w | w in fields :: IsWord(w) && ')' !in w
    requires end == "" || end == "\n"
    ensures Words(Spaced(fields) + end, "") == fields && ')' !in Spaced(fields) + end
  {
    SpacedHas(fields);
    WordsOfSpaced(fields, end, "");
    assert Words(end, "") == [] && [] + (fields + []) == fields;
  }

  /** What any line gives: nothing without a closing parenthesis, else what the two words after the last one say. */
  lemma ProcessLinesExactly(before: string, rest: string)
    requires ')' !in rest
    ensures ParseProcessCpuTicks(rest) == None
    ensures var words := Words(rest, "");
            ParseProcessCpuTicks(before + ")" + rest) ==
            if |words| >= 13 && ParseU64(words[11]).Some? && ParseU64(words[12]).Some?
            then Some(SaturatingAdd(ParseU64(words[11]).value, ParseU64(words[12]).value)) else None
  {
    AfterParenOf(before, rest);
    NoParen(rest);
  }

  lemma {:induction false} NoParen(s: string)
    requires ')' !in s
    ensures AfterLastParen(s) == None
  {
    if s != "" {
      var init := s[..|s| - 1];
      assert s[|s| - 1] in s && forall c | c in init :: c in s;
      NoParen(init);
    }
  }

  lemma {:induction false} DigitsAreNoSpaces(s: string)
    requires AllDigits(s)
    ensures forall c | c in s :: !IsSpace(c) && c != ')'
  {
    if s != "" {
      DigitsAreNoSpaces(s[1..]);
      assert forall c | c in s :: c == s[0] || c in s[1..];
    }
  }

  lemma RenderedIsWord(n: nat)
    ensures IsWord(Render(n)) && ')' !in Render(n)
  {
    RenderIsDigits(n);
    DigitsAreNoSpaces(Render(n));
  }

  // ----- The host line -----

  function ParseAll(fields: seq<string>): Option<seq<nat>> {
    if fields == [] then Some([])
    else
      match (ParseU64(fields[0]), ParseAll(fields[1..]))
      case (Some(n), Some(rest)) => Some([n] + rest)
      case _ => None
  }

  /** Up to the first line feed; a carriage return before it is white space to `Words`. */
  function FirstLine(s: string): string {
    if s == "" || s[0] == '\n' then "" else [s[0]] + FirstLine(s[1..])
  }

  /** Busy and total ticks. */
  function ParseHostCpuTicks(stat: string): Option<(nat, nat)> {
    var words := Words(FirstLine(stat), "");
    if words == [] || words[0] != "cpu" then None
    else
      match ParseAll(words[1..])
      case None => None
      case Some(ticks) => if |ticks| < 8 then None else Some(HostTicks(ticks))
  }

  function HostTicks(ticks: seq<nat>): (nat, nat)
    requires |ticks| >= 8
  {
    var busy := SaturatingAdd(SaturatingAdd(SaturatingAdd(SaturatingAdd(SaturatingAdd(
                  ticks[0], ticks[1]), ticks[2]), ticks[5]), ticks[6]), ticks[7]);
    (busy, SaturatingAdd(busy, SaturatingAdd(ticks[3], ticks[4])))
  }

  lemma {:induction false} ParseAllRendered(ticks: seq<nat>)
    requires forall n | n in ticks :: n <= U64_MAX
    ensures ParseAll(RenderAll(ticks)) == Some(ticks)
    ensures forall w | w in RenderAll(ticks) :: IsWord(w)
  {
    if ticks != [] {
      assert ticks[0] in ticks && forall n | n in ticks[1..] :: n in ticks;
      ParseAllRendered(ticks[1..]);
      ParseRendered(ticks[0]);
      RenderedIsWord(ticks[0]);
      assert RenderAll(ticks)[1..] == RenderAll(ticks[1..]);
      assert [ticks[0]] + ticks[1..] == ticks;
    }
  }

  function RenderAll(ticks: seq<nat>): seq<string> {
    if ticks == [] then [] else [Render(ticks[0])] + RenderAll(ticks[1..])
  }

  function Spaces(n: nat): string {
    if n == 0 then "" else " " + Spaces(n - 1)
  }

  lemma {:induction false} WordsOfSpaces(n: nat, rest: string, current: string)
    requires 0 < n
    ensures Words(Spaces(n) + rest, current) == Begun(current) + Words(rest, "")
  {
    var tail := Spaces(n - 1) + rest;
    assert (Spaces(n) + rest)[0] == ' ' && (Spaces(n) + rest)[1..] == tail;
    if n == 1 {
      assert tail == rest;
    } else {
      WordsOfSpaces(n - 1, rest, "");
      assert [] + Words(rest, "") == Words(rest, "");
    }
  }

  lemma WordsOfHostLine(extra: nat, words: seq<string>)
    requires forall w | w in words :: IsWord(w)
    ensures Words("cpu" + (Spaces(extra) + Spaced(words)), "") == ["cpu"] + words
  {
    var cpu := "cpu";
    assert IsWord(cpu) by {
      assert forall c | c in cpu :: c == 'c' || c == 'p' || c == 'u';
    }
    WordsOfWord(cpu, Spaces(extra) + Spaced(words), "");
    assert "" + cpu == cpu;
    WordsAfterCpu(extra, words, cpu);
  }

  lemma WordsAfterCpu(extra: nat, words: seq<string>, cpu: string)
    requires cpu != "" && forall w | w in words :: IsWord(w)
    ensures Words(Spaces(extra) + Spaced(words), cpu) == [cpu] + words
  {
    assert Spaced(words) + "" == Spaced(words) && words + [] == words && [] + words == words;
    if extra == 0 {
      assert Spaces(extra) + Spaced(words) == Spaced(words);
      WordsOfSpaced(words, "", cpu);
    } else {
      WordsOfSpaces(extra, Spaced(words), cpu);
      WordsOfSpaced(words, "", "");
    }
  }

  lemma {:induction false} FirstLineOf(line: string, more: string)
    requires '\n' !in line
    ensures FirstLine(line + "\n" + more) == line
  {
    if line != "" {
      assert (line + "\n" + more)[1..] == line[1..] + "\n" + more;
      assert line[0] in line && forall c | c in line[1..] :: c in line;
      FirstLineOf(line[1..], more);
    } else {
      assert (line + "\n" + more)[0] == '\n';
    }
  }

  lemma {:induction false} SpacedIsOneLine(words: seq<string>)
    requires forall w | w in words :: IsWord(w)
    ensures '\n' !in Spaced(words)
  {
    if words != [] {
      assert words[0] in words && forall w | w in words[1..] :: w in words;
      SpacedIsOneLine(words[1..]);
    }
  }

  lemma {:induction false} SpacesAreOneLine(n: nat)
    ensures '\n' !in Spaces(n)
  {
    if n > 0 {
      SpacesAreOneLine(n - 1);
    }
  }

  function Saturated(n: nat): nat {
    if n > U64_MAX then U64_MAX else n
  }

  /**
  The host line comes back too, however far its fields stand from "cpu" and whatever lines follow: busy is everything
  but
  idle and iowait, without the guest times counted again, saturated at 64 bits like the total.
  */
  lemma ParsesHostLine(extra: nat, ticks: seq<nat>, more: string)
    requires |ticks| >= 8 && forall n | n in ticks :: n <= U64_MAX
    ensures var busy := ticks[0] + ticks[1] + ticks[2] + ticks[5] + ticks[6] + ticks[7];
            ParseHostCpuTicks("cpu" + (Spaces(extra) + Spaced(RenderAll(ticks))) + "\n" + more)
              == Some((Saturated(busy), Saturated(busy + ticks[3] + ticks[4])))
  {
    ParseAllRendered(ticks);
    HostLineIsFirst(extra, ticks, more);
    WordsOfHostLine(extra, RenderAll(ticks));
    assert (["cpu"] + RenderAll(ticks))[1..] == RenderAll(ticks);
    HostTicksAdd(ticks);
  }

  lemma HostLineIsFirst(extra: nat, ticks: seq<nat>, more: string)
    requires forall w | w in RenderAll(ticks) :: IsWord(w)
    ensures var line := "cpu" + (Spaces(extra) + Spaced(RenderAll(ticks))); FirstLine(line + "\n" + more) == line
  {
    var cpu := "cpu";
    SpacesAreOneLine(extra);
    SpacedIsOneLine(RenderAll(ticks));
    assert forall c | c in cpu :: c == 'c' || c == 'p' || c == 'u';
    FirstLineOf(cpu + (Spaces(extra) + Spaced(RenderAll(ticks))), more);
  }

  lemma HostTicksAdd(ticks: seq<nat>)
    requires |ticks| >= 8
    ensures var busy := ticks[0] + ticks[1] + ticks[2] + ticks[5] + ticks[6] + ticks[7];
            HostTicks(ticks) == (Saturated(busy), Saturated(busy + ticks[3] + ticks[4]))
  {
  }

  /** Whatever the file holds: if it parses, busy is part of the total and both are 64-bit values. */
  lemma BusyIsPart(stat: string)
    requires ParseHostCpuTicks(stat).Some?
    ensures var (busy, total) := ParseHostCpuTicks(stat).value; busy <= total <= U64_MAX
  {
    var fields := Words(FirstLine(stat), "")[1..];
    var ticks := ParseAll(fields).value;
    ParsedFit(fields);
    assert ticks[0] in ticks;
  }

  lemma {:induction false} ParsedFit(fields: seq<string>)
    ensures ParseAll(fields).Some? ==> forall n | n in ParseAll(fields).value :: n <= U64_MAX
  {
    if fields != [] {
      ParsedFit(fields[1..]);
      ParseDigitsExactly(if fields[0] != "" && fields[0][0] == '+' then fields[0][1..] else fields[0], 0);
    }
  }

  // ----- The sampler -----

  const NANOS: nat := 1_000_000_000

  const CLK_TCK: nat := 100

  function Clamp(n: nat): nat {
    if n > U32_MAX then U32_MAX else n
  }

  /** Thousandths of a percent of one CPU, over `elapsed` nanoseconds. */
  function ProcessMilli(ticks: nat, elapsed: nat): nat
    requires elapsed > 0
  {
    Clamp(ticks * 100_000 * NANOS / (CLK_TCK * elapsed))
  }

  function HostMilli(busy: nat, total: nat): nat
    requires total > 0
  {
    Clamp(busy * 100_000 / total)
  }

  /** One reading of each source, if it could be read. */
  datatype Reading = Reading(process: Option<nat>, now: nat, host: Option<(nat, nat)>)

  datatype Sampler = Sampler(
    previousProcess: Option<(nat, nat)>,
    previousHost: Option<(nat, nat)>,
    processMilli: nat,
    hostMilli: nat)

  const FRESH: Sampler := Sampler(None, None, 0, 0)

  function Sampled(s: Sampler, r: Reading): Sampler {
    var p :=
      if r.process.None? then s
      else
        var s' := s.(previousProcess := Some((r.process.value, r.now)));
        if s.previousProcess.Some? && s.previousProcess.value.1 < r.now
        then s'.(processMilli := ProcessMilli(SaturatingSub(r.process.value, s.previousProcess.value.0),
                                              r.now - s.previousProcess.value.1))
        else s';
    if r.host.None? then p
    else
      var p' := p.(previousHost := r.host);
      if s.previousHost.Some? && SaturatingSub(r.host.value.1, s.previousHost.value.1) > 0
      then p'.(hostMilli := HostMilli(SaturatingSub(r.host.value.0, s.previousHost.value.0),
                                      SaturatingSub(r.host.value.1, s.previousHost.value.1)))
      else p'
  }

  class CpuSampler {
    var previousProcess: Option<(nat, nat)>
    var previousHost: Option<(nat, nat)>
    var processMilli: nat
    var hostMilli: nat

    function Value(): Sampler
      reads this
    {
      Sampler(previousProcess, previousHost, processMilli, hostMilli)
    }

    constructor ()
      ensures Value() == FRESH
    {
      previousProcess, previousHost, processMilli, hostMilli := None, None, 0, 0;
    }

    method Sample(r: Reading)
      modifies this
      ensures Value() == Sampled(old(Value()), r)
    {
      if r.process.Some? {
        if previousProcess.Some? {
          var (prevTicks, prevAt) := previousProcess.value;
          var busy := SaturatingSub(r.process.value, prevTicks);
          var elapsed := SaturatingSub(r.now, prevAt);
          if elapsed > 0 {
            processMilli := ProcessMilli(busy, elapsed);
          }
        }
        previousProcess := Some((r.process.value, r.now));
      }
      if r.host.Some? {
        if previousHost.Some? {
          var (prevBusy, prevTotal) := previousHost.value;
          var busyDelta := SaturatingSub(r.host.value.0, prevBusy);
          var totalDelta := SaturatingSub(r.host.value.1, prevTotal);
          if totalDelta > 0 {
            hostMilli := HostMilli(busyDelta, totalDelta);
          }
        }
        previousHost := r.host;
      }
    }
  }

  /**
  Between two readings that did not saturate, the host figure is at most 100% exactly unless the machine got busier
  while its idle counters went back.
  */
  lemma HostMilliIsPercent(busy: nat, idle: nat, busy': nat, idle': nat)
    requires busy + idle < busy' + idle'
    ensures SaturatingSub(busy', busy) <= busy' + idle' - (busy + idle) <==> !(busy < busy' && idle' < idle)
    ensures !(busy < busy' && idle' < idle) ==>
            HostMilli(SaturatingSub(busy', busy), busy' + idle' - (busy + idle)) <= 100_000
  {
    var (b, t) := (SaturatingSub(busy', busy), busy' + idle' - (busy + idle));
    if b <= t {
      assert b * 100_000 <= t * 100_000;
      DivBound(b * 100_000, t, 100_000);
    }
  }

  lemma DivBound(n: nat, d: nat, q: nat)
    requires d > 0 && n <= d * q
    ensures n / d <= q
  {
    var k := n / d;
    if k > q {
      Scaled(q + 1, k, d);
    }
  }

  lemma Scaled(a: nat, b: nat, d: nat)
    requires a <= b
    ensures a * d <= b * d
  {
  }

  lemma DivExact(a: nat, b: nat)
    requires b > 0
    ensures a * b / b == a
  {
    var n := a * b;
    var k := n / b;
    assert n < (k + 1) * b;
    DivBound(n, b, a);
    if k < a {
      Scaled(k + 1, a, b);
    }
  }

  lemma DivMeans(n: nat, d: nat)
    requires d > 0
    ensures n / d * d <= n < (n / d + 1) * d
  {
  }

  /** The process figure is the exact quotient,
    cut to thousandths of a percent: 100 ticks a second are one whole CPU. */
  lemma ProcessMilliMeans(ticks: nat, elapsed: nat)
    requires elapsed > 0
    ensures var m := ProcessMilli(ticks, elapsed);
            && m <= 0xFFFF_FFFF && m * (100 * elapsed) <= ticks * 100_000 * 1_000_000_000
            && (m < 0xFFFF_FFFF ==> ticks * 100_000 * 1_000_000_000 < (m + 1) * (100 * elapsed))
  {
    var (n, d) := (ticks * 100_000 * NANOS, CLK_TCK * elapsed);
    DivMeans(n, d);
    Scaled(ProcessMilli(ticks, elapsed), n / d, d);
  }

  /** The host figure is the exact quotient, cut likewise. */
  lemma HostMilliMeans(busy: nat, total: nat)
    requires total > 0
    ensures var m := HostMilli(busy, total);
            && m <= 0xFFFF_FFFF && m * total <= busy * 100_000
            && (m < 0xFFFF_FFFF ==> busy * 100_000 < (m + 1) * total)
  {
    var n := busy * 100_000;
    DivMeans(n, total);
    Scaled(HostMilli(busy, total), n / total, total);
  }

  /** A process that keeps `cpus` CPUs busy for whole seconds is shown with that many times 100%. */
  lemma BusyCpusAreShown(cpus: nat, seconds: nat)
    requires seconds > 0
    ensures ProcessMilli(cpus * CLK_TCK * seconds, seconds * NANOS) == Clamp(cpus * 100_000)
  {
    var d := CLK_TCK * (seconds * NANOS);
    assert cpus * CLK_TCK * seconds * 100_000 * NANOS == cpus * 100_000 * d;
    DivExact(cpus * 100_000, d);
  }

  function SampledAll(readings: seq<Reading>): Sampler {
    if readings == [] then FRESH else Sampled(SampledAll(readings[..|readings| - 1]), readings[|readings| - 1])
  }

  /** The last host reading of a run. */
  function LastHost(readings: seq<Reading>): Option<(nat, nat)> {
    if readings == [] then None
    else if readings[|readings| - 1].host.Some? then readings[|readings| - 1].host
    else LastHost(readings[..|readings| - 1])
  }

  /** The last process reading of a run, and its time. */
  function LastProcess(readings: seq<Reading>): Option<(nat, nat)> {
    if readings == [] then None
    else
      var last := readings[|readings| - 1];
      if last.process.Some? then Some((last.process.value, last.now)) else LastProcess(readings[..|readings| - 1])
  }

  lemma {:induction false} RemembersLast(readings: seq<Reading>)
    ensures SampledAll(readings).previousProcess == LastProcess(readings)
    ensures SampledAll(readings).previousHost == LastHost(readings)
  {
    if readings != [] {
      RemembersLast(readings[..|readings| - 1]);
    }
  }

  /**
  Along a run the process figure is that of the latest interval between two process readings, whatever was missing in
  between; a round that cannot say anything new leaves it as it is.
  */
  lemma ProcessFigureIsLatest(readings: seq<Reading>)
    requires readings != []
    ensures var (init, r) := (readings[..|readings| - 1], readings[|readings| - 1]);
            SampledAll(readings).processMilli ==
            if r.process.Some? && LastProcess(init).Some? && LastProcess(init).value.1 < r.now then
              var (ticks, at) := LastProcess(init).value;
              ProcessMilli(if r.process.value < ticks then 0 else r.process.value - ticks, r.now - at)
            else SampledAll(init).processMilli
  {
    RemembersLast(readings[..|readings| - 1]);
  }

  /** And so is the host figure, of its own readings. */
  lemma HostFigureIsLatest(readings: seq<Reading>)
    requires readings != []
    ensures var (init, r) := (readings[..|readings| - 1], readings[|readings| - 1]);
            SampledAll(readings).hostMilli ==
            if r.host.Some? && LastHost(init).Some? && LastHost(init).value.1 < r.host.value.1 then
              var (busy, total) := LastHost(init).value;
              HostMilli(if r.host.value.0 < busy then 0 else r.host.value.0 - busy, r.host.value.1 - total)
            else SampledAll(init).hostMilli
  {
    RemembersLast(readings[..|readings| - 1]);
  }

  /** What parses as a host line: "cpu" and at least eight numbers, and nothing that is no number. */
  lemma HostLinesExactly(stat: string)
    ensures var words := Words(FirstLine(stat), "");
            ParseHostCpuTicks(stat).Some? <==>
              |words| >= 9 && words[0] == "cpu" && forall k | 1 <= k < |words| :: ParseU64(words[k]).Some?
  {
    var words := Words(FirstLine(stat), "");
    if words != [] {
      AllParse(words[1..]);
      assert forall k | 1 <= k < |words| :: words[k] == words[1..][k - 1];
    }
  }

  lemma {:induction false} AllParse(fields: seq<string>)
    ensures ParseAll(fields).Some? <==> forall k | 0 <= k < |fields| :: ParseU64(fields[k]).Some?
    ensures ParseAll(fields).Some? ==> |ParseAll(fields).value| == |fields|
  {
    if fields != [] {
      AllParse(fields[1..]);
      assert forall k | 1 <= k < |fields| :: fields[k] == fields[1..][k - 1];
    }
  }

  /** No counter group went backwards: neither busy ticks nor the rest, from one reading to the next. */
  predicate NeverBack(readings: seq<Reading>) {
    readings == [] ||
    var (init, last) := (readings[..|readings| - 1], readings[|readings| - 1]);
    && NeverBack(init)
    && (last.host.Some? ==> last.host.value.0 <= last.host.value.1)
    && (last.host.Some? && LastHost(init).Some? ==>
          && LastHost(init).value.0 <= last.host.value.0
          && LastHost(init).value.1 - LastHost(init).value.0 <= last.host.value.1 - last.host.value.0)
  }

  /** Whatever readings are missing in between, the published host usage never exceeds 100%. */
  lemma {:induction false} HostUsageIsBounded(readings: seq<Reading>)
    requires NeverBack(readings)
    ensures SampledAll(readings).hostMilli <= 100_000 && SampledAll(readings).previousHost == LastHost(readings)
  {
    if readings != [] {
      var (init, last) := (readings[..|readings| - 1], readings[|readings| - 1]);
      HostUsageIsBounded(init);
      if last.host.Some? && LastHost(init).Some? && LastHost(init).value.1 < last.host.value.1 {
        var ((b, t), (b', t')) := (LastHost(init).value, last.host.value);
        assert (b' - b) * 100_000 <= (t' - t) * 100_000;
        DivBound((b' - b) * 100_000, t' - t, 100_000);
      }
    }
  }
}
