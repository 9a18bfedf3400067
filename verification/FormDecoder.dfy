/** The form decoder of the dashboard's HTTP server (apps/desktop/src/http_server.cpp). */
module FormDecoder {
  import opened Options

  /** `find(pattern)`: the first place where the pattern occurs. */
  function Search(s: string, pattern: string): (at: Option<nat>)
    ensures at.Some? ==> at.value + |pattern| <= |s|
  {
    if |s| < |pattern| then None
    else if s[..|pattern|] == pattern then Some(0)
    else if s == [] then None
    else Shift(Search(s[1..], pattern), 1)
  }

  function Shift(at: Option<nat>, n: nat): Option<nat> {
    if at.None? then None else Some(n + at.value)
  }

  /** Everything before the next ampersand, or all of it. */
  function UpToAmpersand(rest: string): string {
    var end := Search(rest, "&");
    if end.None? then rest else rest[..end.value]
  }

  /** `get_post_param`. */
  function GetPostParam(body: string, key: string): string {
    ValueBehind(body, Search(body, key + "="), |key| + 1)
  }

  /** The value behind `skip` characters from where something was found, if it was. */
  function ValueBehind(body: string, at: Option<nat>, skip: nat): string
    requires at.Some? ==> at.value + skip <= |body|
  {
    if at.None? then "" else UpToAmpersand(body[at.value + skip..])
  }

  datatype Pair = Pair(key: string, value: string)

  /** Keys and values as a browser encodes them: the separators do not occur in them. */
  predicate Encoded(s: string) {
    '&' !in s && '=' !in s
  }

  ghost predicate WellFormed(pairs: seq<Pair>) {
    forall p :: p in pairs ==> Encoded(p.key) && Encoded(p.value)
  }

  /** `k=v&k=v&...`. */
  function Form(pairs: seq<Pair>): string {
    if pairs == [] then ""
    else pairs[0].key + "=" + pairs[0].value + (if |pairs| == 1 then "" else "&" + Form(pairs[1..]))
  }

  predicate EndsWith(s: string, suffix: string) {
    |suffix| <= |s| && s[|s| - |suffix|..] == suffix
  }

  /** The value of the first pair whose key ends with the requested one; empty when there is none. */
  function FirstEndingWith(pairs: seq<Pair>, key: string): string {
    if pairs == [] then ""
    else if EndsWith(pairs[0].key, key) then pairs[0].value
    else FirstEndingWith(pairs[1..], key)
  }

  predicate Occurs(s: string, pattern: string, i: nat) {
    i + |pattern| <= |s| && s[i..i + |pattern|] == pattern
  }

  predicate AbsentBefore(s: string, pattern: string, n: nat) {
    forall i: nat :: i < n ==> !Occurs(s, pattern, i)
  }

  lemma AbsentInTail(s: string, pattern: string, n: nat)
    requires 0 < n && s != [] && AbsentBefore(s, pattern, n)
    ensures AbsentBefore(s[1..], pattern, n - 1)
  {
    forall i: nat | i < n - 1 ensures !Occurs(s[1..], pattern, i) {
      assert !Occurs(s, pattern, i + 1);
      assert i + 1 + |pattern| <= |s| ==> s[1..][i..i + |pattern|] == s[i + 1..i + 1 + |pattern|];
    }
  }

  /** Where a pattern does not occur, a search may skip. */
  lemma {:induction false} SearchSkips(s: string, pattern: string, n: nat)
    requires pattern != [] && n <= |s| && AbsentBefore(s, pattern, n)
    ensures Search(s, pattern) == Shift(Search(s[n..], pattern), n)
    decreases n
  {
    if n == 0 {
      assert s[0..] == s;
    } else {
      AbsentInTail(s, pattern, n);
      SearchSkips(s[1..], pattern, n - 1);
      assert s[1..][n - 1..] == s[n..];
      SearchStep(s, pattern);
    }
  }

  lemma SearchStep(s: string, pattern: string)
    requires pattern != [] && s != [] && AbsentBefore(s, pattern, 1)
    ensures Search(s, pattern) == Shift(Search(s[1..], pattern), 1)
  {
    assert !Occurs(s, pattern, 0);
    if |s| < |pattern| {
      assert Search(s[1..], pattern) == None;
    }
  }

  /** An ampersand is found behind text that has none. */
  lemma FindAmpersand(value: string, rest: string)
    requires '&' !in value
    ensures Search(value, "&") == None
    ensures Search(value + ("&" + rest), "&") == Some(|value|)
  {
    var s := value + ("&" + rest);
    NoAmpersand(value, value);
    SearchSkips(value, "&", |value|);
    NoAmpersand(value, s);
    FirstMatch(s, "&", |value|);
  }

  lemma NoAmpersand(value: string, s: string)
    requires '&' !in value && value <= s
    ensures AbsentBefore(s, "&", |value|)
  {
    forall i: nat | i < |value| ensures !Occurs(s, "&", i) {
      assert value[i] in value && s[i] == value[i];
      assert s[i..i + 1] == [s[i]];
    }
  }

  /** Inside the first pair the pattern `key=` can only occur where the pair's key ends. */
  lemma OccursAtKeyEnd(p: Pair, rest: string, key: string, i: nat)
    requires Encoded(p.key) && Encoded(p.value) && Encoded(key) && (rest == "" || rest[0] == '&')
    requires i <= |p.key| + 1 + |p.value| && Occurs(p.key + "=" + p.value + rest, key + "=", i)
    ensures i + |key| == |p.key| && EndsWith(p.key, key)
  {
    var s, pattern := p.key + "=" + p.value + rest, key + "=";
    var e := i + |key|;
    assert pattern[|key|] == '=' && s[e] == s[i..i + |pattern|][|key|];
    // The pattern ends at an `=`; before it there is neither `=` nor `&`.
    forall j | i <= j < e ensures s[j] != '=' && s[j] != '&' {
      assert s[j] == s[i..i + |pattern|][j - i] && pattern[j - i] == key[j - i] && key[j - i] in key;
    }
    assert forall j :: 0 <= j < |p.key| ==> s[j] == p.key[j] && p.key[j] in p.key;
    assert s[|p.key|] == '=';
    assert e >= |p.key|;
    var v := |p.key| + 1;
    assert forall j :: v <= j < v + |p.value| ==> s[j] == p.value[j - v] && p.value[j - v] in p.value;
    assert v + |p.value| < |s| ==> s[v + |p.value|] == rest[0];
    assert e == |p.key|;
    assert p.key[i..] == s[i..i + |pattern|][..|key|] == key;
  }

  /** For any encoded form, the decoder returns the value of the first pair whose key ends with the one asked for. */
  lemma {:induction false} PostParamIsFirstEnding(pairs: seq<Pair>, key: string)
    requires WellFormed(pairs) && Encoded(key)
    ensures GetPostParam(Form(pairs), key) == FirstEndingWith(pairs, key)
    decreases |pairs|
  {
    if pairs == [] {
    } else {
      var p := pairs[0];
      var rest := if |pairs| == 1 then "" else "&" + Form(pairs[1..]);
      assert Encoded(p.key) && Encoded(p.value);
      assert Form(pairs) == p.key + "=" + p.value + rest;
      if EndsWith(p.key, key) {
        FoundInFirst(p, rest, key);
      } else {
        SkipsFirst(p, rest, key);
        if |pairs| > 1 {
          assert rest[1..] == Form(pairs[1..]);
          PostParamIsFirstEnding(pairs[1..], key);
        }
      }
    }
  }

  lemma FirstMatch(s: string, pattern: string, at: nat)
    requires pattern != [] && Occurs(s, pattern, at) && AbsentBefore(s, pattern, at)
    ensures Search(s, pattern) == Some(at)
  {
    SearchSkips(s, pattern, at);
    assert s[at..][..|pattern|] == pattern;
  }

  /** What stands before the next ampersand, or all of the rest. */
  lemma ValueBeforeRest(value: string, rest: string)
    requires '&' !in value && (rest == "" || rest[0] == '&')
    ensures UpToAmpersand(value + rest) == value
  {
    if rest == "" {
      FindAmpersand(value, "");
      assert value + rest == value;
    } else {
      FindAmpersand(value, rest[1..]);
      assert rest == "&" + rest[1..];
    }
  }

  lemma FoundInFirst(p: Pair, rest: string, key: string)
    requires Encoded(p.key) && Encoded(p.value) && Encoded(key) && (rest == "" || rest[0] == '&')
    requires EndsWith(p.key, key)
    ensures GetPostParam(p.key + "=" + p.value + rest, key) == p.value
  {
    MatchInFirst(p, rest, key);
    ValueBeforeRest(p.value, rest);
    assert (p.key + "=" + p.value + rest)[|p.key| + 1..] == p.value + rest;
  }

  /** Up to the end of the first pair there is no match, but for the one at the end of its key. */
  lemma MatchesInFirst(p: Pair, rest: string, key: string)
    requires Encoded(p.key) && Encoded(p.value) && Encoded(key) && (rest == "" || rest[0] == '&')
    ensures forall i: nat :: i <= |p.key| + 1 + |p.value| && Occurs(p.key + "=" + p.value + rest, key + "=", i) ==>
              i + |key| == |p.key| && EndsWith(p.key, key)
  {
    var s := p.key + "=" + p.value + rest;
    forall i: nat | i <= |p.key| + 1 + |p.value| && Occurs(s, key + "=", i)
      ensures i + |key| == |p.key| && EndsWith(p.key, key)
    {
      OccursAtKeyEnd(p, rest, key, i);
    }
  }

  lemma OccursInKey(p: Pair, rest: string, key: string)
    requires EndsWith(p.key, key)
    ensures Occurs(p.key + "=" + p.value + rest, key + "=", |p.key| - |key|)
  {
    var s, at := p.key + "=" + p.value + rest, |p.key| - |key|;
    assert s[at..at + |key| + 1] == p.key[at..] + "=";
  }

  lemma MatchInFirst(p: Pair, rest: string, key: string)
    requires Encoded(p.key) && Encoded(p.value) && Encoded(key) && (rest == "" || rest[0] == '&')
    requires EndsWith(p.key, key)
    ensures Search(p.key + "=" + p.value + rest, key + "=") == Some(|p.key| - |key|)
  {
    MatchesInFirst(p, rest, key);
    OccursInKey(p, rest, key);
    FirstMatch(p.key + "=" + p.value + rest, key + "=", |p.key| - |key|);
  }

  lemma ValueShifts(s: string, n: nat, at: Option<nat>, skip: nat)
    requires n <= |s| && (at.Some? ==> n + at.value + skip <= |s|)
    ensures ValueBehind(s, Shift(at, n), skip) == ValueBehind(s[n..], at, skip)
  {
    if at.Some? {
      assert s[n + at.value + skip..] == s[n..][at.value + skip..];
    }
  }

  /** Skipping text without the pattern does not change what is decoded. */
  lemma DecodeSkips(s: string, n: nat, key: string)
    requires n <= |s| && AbsentBefore(s, key + "=", n)
    ensures GetPostParam(s, key) == GetPostParam(s[n..], key)
  {
    SearchSkips(s, key + "=", n);
    ValueShifts(s, n, Search(s[n..], key + "="), |key| + 1);
  }

  lemma SkipsFirst(p: Pair, rest: string, key: string)
    requires Encoded(p.key) && Encoded(p.value) && Encoded(key) && (rest == "" || rest[0] == '&')
    requires !EndsWith(p.key, key)
    ensures GetPostParam(p.key + "=" + p.value + rest, key) == if rest == "" then "" else GetPostParam(rest[1..], key)
  {
    var s := p.key + "=" + p.value + rest;
    var n := |p.key| + 1 + |p.value|;
    MatchesInFirst(p, rest, key);
    if rest == "" {
      DecodeSkips(s, n, key);
      assert s[n..] == "";
      assert GetPostParam("", key) == "";
    } else {
      DecodeSkips(s, n + 1, key);
      assert s[n + 1..] == rest[1..];
    }
  }

  /** The four fields the dashboard submits are recovered exactly, whatever their values. */
  lemma DashboardFormDecodes(telemetry: string, git: string, gitOn: string, notifOn: string)
    requires Encoded(telemetry) && Encoded(git) && Encoded(gitOn) && Encoded(notifOn)
    ensures var form := Form([Pair("telemetry_interval", telemetry), Pair("git_interval", git),
                              Pair("enable_git", gitOn), Pair("enable_notif", notifOn)]);
            && GetPostParam(form, "telemetry_interval") == telemetry
            && GetPostParam(form, "git_interval") == git
            && GetPostParam(form, "enable_git") == gitOn
            && GetPostParam(form, "enable_notif") == notifOn
  {
    KeysDiffer();
    FourFields(Pair("telemetry_interval", telemetry), Pair("git_interval", git),
               Pair("enable_git", gitOn), Pair("enable_notif", notifOn));
  }

  /** A form of four fields, none of whose keys ends with a later one, is decoded field by field. */
  lemma FourFields(a: Pair, b: Pair, c: Pair, d: Pair)
    requires WellFormed([a, b, c, d])
    requires !EndsWith(a.key, b.key) && !EndsWith(a.key, c.key) && !EndsWith(a.key, d.key)
    requires !EndsWith(b.key, c.key) && !EndsWith(b.key, d.key) && !EndsWith(c.key, d.key)
    ensures var form := Form([a, b, c, d]);
            GetPostParam(form, a.key) == a.value && GetPostParam(form, b.key) == b.value
            && GetPostParam(form, c.key) == c.value && GetPostParam(form, d.key) == d.value
  {
    var pairs := [a, b, c, d];
    assert a in pairs && b in pairs && c in pairs && d in pairs;
    PostParamIsFirstEnding(pairs, a.key);
    PostParamIsFirstEnding(pairs, b.key);
    PostParamIsFirstEnding(pairs, c.key);
    PostParamIsFirstEnding(pairs, d.key);
    assert pairs[1..] == [b, c, d] && [b, c, d][1..] == [c, d] && [c, d][1..] == [d];
    assert FirstEndingWith([d], d.key) == d.value;
    assert FirstEndingWith([c, d], c.key) == c.value && FirstEndingWith([c, d], d.key) == d.value;
    assert FirstEndingWith([b, c, d], c.key) == c.value && FirstEndingWith([b, c, d], d.key) == d.value;
  }

  /** None of the dashboard's keys ends with a later one. */
  lemma KeysDiffer()
    ensures !EndsWith("telemetry_interval", "git_interval") && !EndsWith("telemetry_interval", "enable_git")
    ensures !EndsWith("telemetry_interval", "enable_notif") && !EndsWith("git_interval", "enable_git")
    ensures !EndsWith("git_interval", "enable_notif") && !EndsWith("enable_git", "enable_notif")
    ensures Encoded("telemetry_interval") && Encoded("git_interval") && Encoded("enable_git") && Encoded("enable_notif")
  {
    TelemetryDiffers();
    GitDiffers();
  }

  lemma TelemetryDiffers()
    ensures !EndsWith("telemetry_interval", "git_interval") && !EndsWith("telemetry_interval", "enable_git")
    ensures !EndsWith("telemetry_interval", "enable_notif")
  {
    Mismatch("telemetry_interval", "git_interval", 0);
    Mismatch("telemetry_interval", "enable_git", 0);
    Mismatch("telemetry_interval", "enable_notif", 0);
  }

  lemma GitDiffers()
    ensures !EndsWith("git_interval", "enable_git") && !EndsWith("git_interval", "enable_notif")
  {
    Mismatch("git_interval", "enable_git", 0);
    Mismatch("git_interval", "enable_notif", 0);
  }

  lemma Mismatch(s: string, suffix: string, at: nat)
    requires |suffix| <= |s| && at < |suffix| && s[|s| - |suffix| + at] != suffix[at]
    ensures !EndsWith(s, suffix)
  {
  }
}
