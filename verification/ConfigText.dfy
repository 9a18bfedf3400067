/** The configuration file of apps/desktop/src/config_service.cpp: printing, parsing and the service that does both. */
module ConfigText {
  import opened Options

  // ----- the C++ library, as far as it is used -----

  /** `std::isspace` in the C locale. */
  predicate IsSpace(c: char) {
    c == ' ' || '\t' <= c <= '\r'
  }

  predicate IsDigit(c: char) {
    '0' <= c <= '9'
  }

  /** `find`: the first place of a character, or the length when there is none. */
  function Find(s: string, c: char): (k: nat)
    ensures k <= |s| && (k < |s| ==> s[k] == c)
  {
    if s == [] || s[0] == c then 0 else 1 + Find(s[1..], c)
  }

  /** Without the spaces at the front. */
  function TrimFront(s: string): string {
    if s != [] && IsSpace(s[0]) then TrimFront(s[1..]) else s
  }

  function TrimBack(s: string): string {
    if s != [] && IsSpace(s[|s| - 1]) then TrimBack(s[..|s| - 1]) else s
  }

  function Trim(s: string): string {
    TrimBack(TrimFront(s))
  }

  function DigitValue(c: char): nat
    requires IsDigit(c)
  {
    c as int - '0' as int
  }

  /** How many digits a string begins with. */
  function LeadingDigits(s: string): nat {
    if s != [] && IsDigit(s[0]) then 1 + LeadingDigits(s[1..]) else 0
  }

  function Decimal(digits: string): nat
    requires forall c :: c in digits ==> IsDigit(c)
  {
    if digits == [] then 0
    else
      var last := digits[|digits| - 1];
      assert last in digits;
      Decimal(digits[..|digits| - 1]) * 10 + DigitValue(last)
  }

  lemma {:induction false} LeadingAreDigits(s: string)
    ensures LeadingDigits(s) <= |s| && forall c :: c in s[..LeadingDigits(s)] ==> IsDigit(c)
  {
    if s != [] && IsDigit(s[0]) {
      LeadingAreDigits(s[1..]);
      assert s[..LeadingDigits(s)] == [s[0]] + s[1..][..LeadingDigits(s[1..])];
    }
  }

  const INT_MIN := -0x8000_0000
  const INT_MAX := 0x7FFF_FFFF

  /** `std::stoi`: spaces, a sign, digits, then anything; an exception without digits or out of range. */
  function Stoi(s: string): Option<int> {
    var t := TrimFront(s);
    var signed := t != [] && (t[0] == '-' || t[0] == '+');
    var u := if signed then t[1..] else t;
    var n := LeadingDigits(u);
    LeadingAreDigits(u);
    var magnitude: int := Decimal(u[..n]);
    var value := if signed && t[0] == '-' then -magnitude else magnitude;
    if n == 0 || !(INT_MIN <= value <= INT_MAX) then None else Some(value)
  }

  /** `operator<<` on an `int`. */
  function PrintNat(n: nat): (s: string)
    ensures s != [] && forall c :: c in s ==> IsDigit(c)
  {
    var last := ['0' + (n % 10) as char];
    if n < 10 then last else PrintNat(n / 10) + last
  }

  function PrintInt(n: int): string {
    if n < 0 then "-" + PrintNat(-n) else PrintNat(n)
  }

  /** `std::getline` until the end: a last line without a newline counts, an empty one does not. */
  function Lines(text: string): seq<string>
    decreases |text|
  {
    if text == [] then []
    else
      var k := Find(text, '\n');
      if k == |text| then [text] else [text[..k]] + Lines(text[k + 1..])
  }

  // ----- the file format -----

  datatype Config = Config(telemetry: int, git: int, notif: int, gitOn: bool, notifOn: bool)

  const DEFAULTS := Config(1000, 3000, 500, true, true)

  datatype Entry = Entry(key: string, value: string)

  /** What a line assigns, if anything: the text before the first `#`, split at its first `=`. */
  function ParseLine(line: string): Option<Entry> {
    var code := line[..Find(line, '#')];
    var eq := Find(code, '=');
    if eq == |code| then None
    else
      var value := Trim(code[eq + 1..]);
      if value == [] then None else Some(Entry(Trim(code[..eq]), value))
  }

  datatype Key = Telemetry | GitEvery | NotifEvery | EnableGit | EnableNotif

  function NameOf(k: Key): string {
    match k
    case Telemetry => "telemetry_interval_ms"
    case GitEvery => "git_interval_ms"
    case NotifEvery => "notif_interval_ms"
    case EnableGit => "enable_git"
    case EnableNotif => "enable_notif"
  }

  function KeyOf(name: string): Option<Key> {
    if name == "telemetry_interval_ms" then Some(Telemetry)
    else if name == "git_interval_ms" then Some(GitEvery)
    else if name == "notif_interval_ms" then Some(NotifEvery)
    else if name == "enable_git" then Some(EnableGit)
    else if name == "enable_notif" then Some(EnableNotif)
    else None
  }

  function Set(c: Config, k: Key, v: int): Config {
    match k
    case Telemetry => c.(telemetry := v)
    case GitEvery => c.(git := v)
    case NotifEvery => c.(notif := v)
    case EnableGit => c.(gitOn := v != 0)
    case EnableNotif => c.(notifOn := v != 0)
  }

  datatype Setting = Setting(key: Key, value: int)

  /** The setting a line makes: a known key and a value `stoi` accepts. */
  function SettingOf(line: string): Option<Setting> {
    var e := ParseLine(line);
    if e.None? then None
    else
      var k := KeyOf(e.value.key);
      var v := Stoi(e.value.value);
      if k.None? || v.None? then None else Some(Setting(k.value, v.value))
  }

  function Obey(c: Config, line: string): Config {
    var s := SettingOf(line);
    if s.None? then c else Set(c, s.value.key, s.value.value)
  }

  function ObeyAll(c: Config, lines: seq<string>): Config {
    if lines == [] then c else Obey(ObeyAll(c, lines[..|lines| - 1]), lines[|lines| - 1])
  }

  function Load(c: Config, text: string): Config {
    ObeyAll(c, Lines(text))
  }

  function SaveLine(k: Key, v: int): string {
    NameOf(k) + " = " + PrintInt(v)
  }

  function Flag(b: bool): int { if b then 1 else 0 }

  const BANNER := "# PSP DevLink " + "Desktop Companion " + "Configuration"

  function SettingsOf(c: Config): seq<Setting> {
    [Setting(Telemetry, c.telemetry), Setting(GitEvery, c.git), Setting(NotifEvery, c.notif),
     Setting(EnableGit, Flag(c.gitOn)), Setting(EnableNotif, Flag(c.notifOn))]
  }

  /** The lines settings are saved as, after the banner. */
  function SavedLines(banner: string, ss: seq<Setting>): seq<string> {
    if ss == [] then [banner]
    else SavedLines(banner, ss[..|ss| - 1]) + [SaveLine(ss[|ss| - 1].key, ss[|ss| - 1].value)]
  }

  function Unlines(lines: seq<string>): string {
    if lines == [] then [] else Unlines(lines[..|lines| - 1]) + lines[|lines| - 1] + "\n"
  }

  function Save(c: Config): string {
    Unlines(SavedLines(BANNER, SettingsOf(c)))
  }

  // ----- the service -----

  class Service {
    /** The file on disk, if it exists, and whether it can be written. */
    var file: Option<string>
    const writable: bool
    var telemetry: int
    var git: int
    var notif: int
    var gitOn: bool
    var notifOn: bool

    ghost function State(): Config
      reads this
    {
      Config(telemetry, git, notif, gitOn, notifOn)
    }

    constructor (file: Option<string>, writable: bool)
      ensures State() == DEFAULTS && this.file == file && this.writable == writable
    {
      this.file, this.writable := file, writable;
      telemetry, git, notif, gitOn, notifOn := 1000, 3000, 500, true, true;
    }

    /** `save`. */
    method SaveFile()
      modifies this`file
      ensures file == if writable then Some(Save(State())) else old(file)
    {
      if !writable {
        return;
      }
      var out := Render(BANNER);
      file := Some(out);
    }

    /** The output statements of `save`. */
    method Render(banner: string) returns (out: string)
      ensures out == Unlines(SavedLines(banner, SettingsOf(State())))
    {
      out := banner + "\n";
      BannerFirst(banner);
      ghost var settings: seq<Setting> := [];
      out, settings := RenderIntervals(out, banner, settings);
      out, settings := RenderFlags(out, banner, settings);
      assert settings == SettingsOf(State());
    }

    method RenderFlags(text: string, ghost banner: string, ghost before: seq<Setting>)
      returns (out: string, ghost after: seq<Setting>)
      requires text == Unlines(SavedLines(banner, before))
      ensures after == before + [Setting(EnableGit, Flag(gitOn))] + [Setting(EnableNotif, Flag(notifOn))]
      ensures out == Unlines(SavedLines(banner, after))
    {
      out, after := Write(text, EnableGit, if gitOn then 1 else 0, banner, before);
      out, after := Write(out, EnableNotif, if notifOn then 1 else 0, banner, after);
    }

    method RenderIntervals(text: string, ghost banner: string, ghost before: seq<Setting>)
      returns (out: string, ghost after: seq<Setting>)
      requires text == Unlines(SavedLines(banner, before))
      ensures after == before + [Setting(Telemetry, telemetry)] + [Setting(GitEvery, git)]
                       + [Setting(NotifEvery, notif)]
      ensures out == Unlines(SavedLines(banner, after))
    {
      out, after := Write(text, Telemetry, telemetry, banner, before);
      out, after := Write(out, GitEvery, git, banner, after);
      out, after := Write(out, NotifEvery, notif, banner, after);
    }

    /** `file << "<name> = " << value << "\n"`. */
    method Write(text: string, k: Key, v: int, ghost banner: string, ghost before: seq<Setting>)
      returns (out: string, ghost after: seq<Setting>)
      requires text == Unlines(SavedLines(banner, before))
      ensures after == before + [Setting(k, v)] && out == Unlines(SavedLines(banner, after))
    {
      var name, value := NameOf(k), PrintInt(v);
      out, after := text + name + " = " + value + "\n", before + [Setting(k, v)];
      assert after[..|before|] == before;
      LineAdded(SavedLines(banner, before), name, value);
    }

    /** `load`: without a file, the current settings are saved instead. */
    method LoadFile()
      modifies this
      ensures old(file).Some? ==> State() == Load(old(State()), old(file).value) && file == old(file)
      ensures old(file).None? ==> State() == old(State()) && file == if writable then Some(Save(State())) else None
    {
      if file.None? {
        SaveFile();
        return;
      }
      var rest := file.value;
      ghost var done: seq<string> := [];
      assert Lines(rest) == done + Lines(rest);
      while rest != []
        invariant file == old(file) && Lines(file.value) == done + Lines(rest)
        invariant State() == ObeyAll(old(State()), done)
        decreases |rest|
      {
        var line;
        line, rest := GetLine(rest);
        Shifted(done, line, Lines(rest));
        ReadLine(line);
        done := done + [line];
      }
      assert done + Lines(rest) == done;
    }

    /** `std::getline`. */
    method GetLine(text: string) returns (line: string, rest: string)
      requires text != []
      ensures Lines(text) == [line] + Lines(rest) && |rest| < |text|
    {
      var k := Find(text, '\n');
      line := text[..k];
      rest := if k < |text| then text[k + 1..] else [];
      if k < |text| {
        LineBeforeNewline(text, k);
      } else {
        LastLine(text);
        assert line == text && Lines(rest) == [];
      }
    }

    /** One turn of the line loop. */
    method ReadLine(line: string)
      modifies this`telemetry, this`git, this`notif, this`gitOn, this`notifOn
      ensures State() == Obey(old(State()), line)
    {
      var entry := SplitLine(line);
      if entry.Some? {
        var number := Stoi(entry.value.value);
        if number.Some? {
          Assign(entry.value.key, number.value);
        }
      }
    }

    /** Comment, separator, key and value of a line. */
    method SplitLine(line0: string) returns (entry: Option<Entry>)
      ensures entry == ParseLine(line0)
    {
      var line := line0;
      var comment := Find(line, '#');
      assert comment == |line| ==> line[..comment] == line;
      if comment < |line| {
        line := line[..comment];
      }
      var eq := Find(line, '=');
      if eq == |line| {
        return None;
      }
      var key := Trim(line[..eq]);
      var val := Trim(line[eq + 1..]);
      if val == [] {
        return None;
      }
      return Some(Entry(key, val));
    }

    /** The chain of key comparisons. */
    method Assign(key: string, number: int)
      modifies this`telemetry, this`git, this`notif, this`gitOn, this`notifOn
      ensures var k := KeyOf(key);
              State() == if k.None? then old(State()) else Set(old(State()), k.value, number)
    {
      if key == "telemetry_interval_ms" {
        telemetry := number;
      } else if key == "git_interval_ms" {
        git := number;
      } else if key == "notif_interval_ms" {
        notif := number;
      } else if key == "enable_git" {
        gitOn := number != 0;
      } else if key == "enable_notif" {
        notifOn := number != 0;
      }
    }
  }

  lemma LineBeforeNewline(text: string, k: nat)
    requires k == Find(text, '\n') && k < |text|
    ensures Lines(text) == [text[..k]] + Lines(text[k + 1..])
  {
  }

  lemma LastLine(text: string)
    requires text != [] && Find(text, '\n') == |text|
    ensures Lines(text) == [text]
  {
  }

  lemma Shifted(done: seq<string>, line: string, later: seq<string>)
    ensures done + ([line] + later) == (done + [line]) + later
    ensures (done + [line])[..|done|] == done
  {
  }

  lemma BannerFirst(banner: string)
    ensures Unlines(SavedLines(banner, [])) == banner + "\n"
  {
    assert [banner][..0] == [];
    assert [] + banner == banner;
  }

  lemma LineAdded(lines: seq<string>, name: string, value: string)
    ensures Unlines(lines + [name + " = " + value]) == Unlines(lines) + name + " = " + value + "\n"
  {
    assert (lines + [name + " = " + value])[..|lines|] == lines;
  }

  // ----- numbers -----

  lemma {:induction false} DecimalOfPrinted(n: nat)
    ensures Decimal(PrintNat(n)) == n
  {
    if n >= 10 {
      DecimalOfPrinted(n / 10);
      assert PrintNat(n)[..|PrintNat(n)| - 1] == PrintNat(n / 10);
    }
  }

  lemma {:induction false} AllLeading(s: string)
    requires forall c :: c in s ==> IsDigit(c)
    ensures LeadingDigits(s) == |s|
  {
    if s != [] {
      assert s[0] in s && forall c :: c in s[1..] ==> c in s;
      AllLeading(s[1..]);
    }
  }

  /** Printed digits are all read as digits, and as the number they were printed from. */
  lemma PrintedReads(n: nat)
    ensures var d := PrintNat(n);
            && LeadingDigits(d) == |d| && d[..|d|] == d && Decimal(d) == n
            && !IsSpace(d[0]) && d[0] != '-' && d[0] != '+'
  {
    var d := PrintNat(n);
    DecimalOfPrinted(n);
    AllLeading(d);
    assert d[0] in d;
  }

  lemma StoiOfNat(n: nat)
    requires n <= INT_MAX
    ensures Stoi(PrintNat(n)) == Some(n)
  {
    PrintedReads(n);
  }

  lemma StoiOfNegative(n: int)
    requires 0 < n <= -INT_MIN
    ensures Stoi("-" + PrintNat(n)) == Some(-n)
  {
    PrintedReads(n);
    assert ("-" + PrintNat(n))[1..] == PrintNat(n);
  }

  /** Every `int` is read back as it was printed. */
  lemma StoiReadsPrinted(n: int)
    requires INT_MIN <= n <= INT_MAX
    ensures Stoi(PrintInt(n)) == Some(n)
  {
    if n < 0 {
      StoiOfNegative(-n);
    } else {
      StoiOfNat(n);
    }
  }

  predicate Blank(s: string) {
    forall c :: c in s ==> IsSpace(c)
  }

  lemma {:induction false} TrimFrontSkips(spaces: string, t: string)
    requires Blank(spaces) && (t == "" || !IsSpace(t[0]))
    ensures TrimFront(spaces + t) == t
  {
    if spaces == "" {
      assert spaces + t == t;
    } else {
      assert spaces[0] in spaces && forall c :: c in spaces[1..] ==> c in spaces;
      assert (spaces + t)[1..] == spaces[1..] + t;
      TrimFrontSkips(spaces[1..], t);
    }
  }

  lemma {:induction false} DigitsBefore(digits: string, rest: string)
    requires (forall c :: c in digits ==> IsDigit(c)) && (rest == "" || !IsDigit(rest[0]))
    ensures LeadingDigits(digits + rest) == |digits| && (digits + rest)[..|digits|] == digits
  {
    if digits == "" {
      assert digits + rest == rest;
    } else {
      assert digits[0] in digits && forall c :: c in digits[1..] ==> c in digits;
      assert (digits + rest)[1..] == digits[1..] + rest;
      DigitsBefore(digits[1..], rest);
    }
  }

  predicate IsSign(s: string) {
    s == "" || s == "-" || s == "+"
  }

  /**
   What `stoi` makes of a text: spaces, a sign or none, digits, anything. Without digits it refuses, and so it does
   when the number is no `int`; what follows the digits does not matter.
   */
  lemma StoiReads(spaces: string, sign: string, digits: string, rest: string)
    requires Blank(spaces) && IsSign(sign) && (forall c :: c in digits ==> IsDigit(c))
    requires rest == "" || !IsDigit(rest[0])
    requires sign == "" && digits == "" && rest != "" ==> !IsSpace(rest[0]) && rest[0] != '-' && rest[0] != '+'
    ensures var n: int := Decimal(digits);
            var value := if sign == "-" then -n else n;
            Stoi(spaces + (sign + (digits + rest)))
            == if digits == "" || !(INT_MIN <= value <= INT_MAX) then None else Some(value)
  {
    var u := digits + rest;
    assert digits != "" ==> digits[0] in digits && u[0] == digits[0];
    assert digits == "" ==> u == rest;
    TrimFrontSkips(spaces, sign + u);
    DigitsBefore(digits, rest);
    if sign != "" {
      assert (sign + u)[1..] == u;
    } else {
      assert sign + u == u;
    }
  }

  // ----- lines -----

  /** Text a printed line is made of: nothing the parser treats specially. */
  predicate Plain(s: string) {
    s != [] && forall c :: c in s ==> c != '#' && c != '=' && !IsSpace(c)
  }

  lemma {:induction false} FindSkips(s: string, t: string, c: char)
    requires c !in s
    ensures Find(s + t, c) == |s| + Find(t, c)
  {
    if s == [] {
      assert s + t == t;
    } else {
      assert (s + t)[1..] == s[1..] + t && s[0] in s;
      FindSkips(s[1..], t, c);
    }
  }

  lemma TrimKey(key: string)
    requires Plain(key)
    ensures Trim(key + " ") == key
  {
    var s := key + " ";
    assert s[0] == key[0] && key[0] in key;
    assert TrimFront(s) == s;
    assert s[..|s| - 1] == key && key[|key| - 1] in key;
    assert TrimBack(key) == key;
  }

  lemma TrimValue(value: string)
    requires Plain(value)
    ensures Trim(" " + value) == value
  {
    var s := " " + value;
    assert s[1..] == value && value[0] in value && value[|value| - 1] in value;
    assert TrimFront(s) == TrimFront(value) == value;
  }

  lemma {:induction false} FindFirst(s: string, t: string, c: char)
    requires c !in s && (t == "" || t[0] == c)
    ensures Find(s + t, c) == |s|
  {
    FindSkips(s, t, c);
  }

  lemma CodeOfLine(code: string, comment: string)
    requires '#' !in code && (comment == "" || comment[0] == '#')
    ensures (code + comment)[..Find(code + comment, '#')] == code
  {
    FindFirst(code, comment, '#');
  }

  lemma NotIn(a: string, b: string, d: string, c: char)
    requires c !in a && c !in b && c !in d
    ensures c !in a + b + d
  {
  }

  /**
   What a line says, for every line with an `=` before any comment: the key is what stands before the first `=`,
   the value what stands between it and the comment, both without the spaces around them; a value of nothing
   but spaces assigns nothing.
   */
  lemma AssignmentReads(key: string, value: string, comment: string)
    requires '#' !in key && '=' !in key && '#' !in value && (comment == "" || comment[0] == '#')
    ensures ParseLine(key + "=" + value + comment)
            == if Trim(value) == [] then None else Some(Entry(Trim(key), Trim(value)))
  {
    var code := key + "=" + value;
    NotIn(key, "=", value, '#');
    CodeOfLine(code, comment);
    assert code == key + ("=" + value);
    FindFirst(key, "=" + value, '=');
    assert code[..|key|] == key && code[|key| + 1..] == value;
  }

  /** And for every other line: it assigns nothing. */
  lemma OtherLineReads(code: string, comment: string)
    requires '#' !in code && '=' !in code && (comment == "" || comment[0] == '#')
    ensures ParseLine(code + comment) == None
  {
    CodeOfLine(code, comment);
    FindFirst(code, "", '=');
    assert code + "" == code;
  }

  lemma {:induction false} TrimFrontMeans(s: string) returns (front: string)
    ensures s == front + TrimFront(s) && Blank(front) && (TrimFront(s) != [] ==> !IsSpace(TrimFront(s)[0]))
  {
    if s != [] && IsSpace(s[0]) {
      front := TrimFrontMeans(s[1..]);
      front := [s[0]] + front;
    } else {
      front := "";
    }
  }

  lemma {:induction false} TrimBackMeans(s: string) returns (back: string)
    ensures s == TrimBack(s) + back && Blank(back)
    ensures TrimBack(s) != [] ==> !IsSpace(TrimBack(s)[|TrimBack(s)| - 1])
  {
    if s != [] && IsSpace(s[|s| - 1]) {
      back := TrimBackMeans(s[..|s| - 1]);
      back := back + [s[|s| - 1]];
    } else {
      back := "";
    }
  }

  /** Trimming takes off spaces at both ends, all of them, and nothing else. */
  lemma TrimMeans(s: string) returns (front: string, back: string)
    ensures s == front + Trim(s) + back && Blank(front) && Blank(back)
    ensures Trim(s) != [] ==> !IsSpace(Trim(s)[0]) && !IsSpace(Trim(s)[|Trim(s)| - 1])
  {
    front := TrimFrontMeans(s);
    back := TrimBackMeans(TrimFront(s));
    assert TrimFront(s) != [] && Trim(s) != [] ==> Trim(s)[0] == TrimFront(s)[0];
  }

  lemma ParseSaved(key: string, value: string)
    requires Plain(key) && Plain(value)
    ensures ParseLine(key + " = " + value) == Some(Entry(key, value))
  {
    AssignmentReads(key + " ", " " + value, "");
    TrimKey(key);
    TrimValue(value);
    SpacedOut(key, value);
  }

  lemma SpacedOut(key: string, value: string)
    ensures key + " = " + value == (key + " ") + "=" + (" " + value) + ""
  {
  }

  lemma NamesArePlain(k: Key)
    ensures Plain(NameOf(k)) && KeyOf(NameOf(k)) == Some(k)
  {
  }

  lemma PrintedIsPlain(n: int)
    ensures Plain(PrintInt(n))
  {
    var digits := PrintNat(if n < 0 then -n else n);
    assert forall c :: c in PrintInt(n) ==> c == '-' || c in digits;
  }

  lemma SavedLineSets(k: Key, v: int)
    requires INT_MIN <= v <= INT_MAX
    ensures SettingOf(SaveLine(k, v)) == Some(Setting(k, v))
    ensures '\n' !in SaveLine(k, v)
  {
    NamesArePlain(k);
    PrintedIsPlain(v);
    StoiReadsPrinted(v);
    LineSets(k, NameOf(k), PrintInt(v), v);
  }

  lemma LineSets(k: Key, name: string, printed: string, v: int)
    requires Plain(name) && Plain(printed) && KeyOf(name) == Some(k) && Stoi(printed) == Some(v)
    ensures SettingOf(name + " = " + printed) == Some(Setting(k, v))
    ensures '\n' !in name + " = " + printed
  {
    ParseSaved(name, printed);
  }

  lemma FirstLine(line: string, rest: string)
    requires '\n' !in line
    ensures Lines(line + ("\n" + rest)) == [line] + Lines(rest)
  {
    var text := line + ("\n" + rest);
    FindFirst(line, "\n" + rest, '\n');
    assert text[..|line|] == line && text[|line| + 1..] == rest;
  }

  lemma {:induction false} LinesOfUnlines(lines: seq<string>, rest: string)
    requires forall l :: l in lines ==> '\n' !in l
    ensures Lines(Unlines(lines) + rest) == lines + Lines(rest)
    decreases |lines|
  {
    if lines == [] {
      assert Unlines(lines) + rest == rest;
    } else {
      var before, last := lines[..|lines| - 1], lines[|lines| - 1];
      assert lines == before + [last];
      LinesOfUnlines(before, last + ("\n" + rest));
      OneMoreLine(before, last, rest);
    }
  }

  lemma OneMoreLine(before: seq<string>, last: string, rest: string)
    requires '\n' !in last
    requires Lines(Unlines(before) + (last + ("\n" + rest))) == before + Lines(last + ("\n" + rest))
    ensures Lines(Unlines(before + [last]) + rest) == before + [last] + Lines(rest)
  {
    UnlinesEndsIn(before, last, rest);
    FirstLine(last, rest);
    AppendHead(before, last, Lines(rest));
  }

  lemma AppendHead(before: seq<string>, last: string, after: seq<string>)
    ensures before + ([last] + after) == before + [last] + after
  {
  }

  lemma UnlinesEndsIn(before: seq<string>, last: string, rest: string)
    ensures Unlines(before + [last]) + rest == Unlines(before) + (last + ("\n" + rest))
  {
    assert (before + [last])[..|before|] == before;
  }

  function SetAll(c: Config, ss: seq<Setting>): Config {
    if ss == [] then c else Set(SetAll(c, ss[..|ss| - 1]), ss[|ss| - 1].key, ss[|ss| - 1].value)
  }

  predicate InRange(ss: seq<Setting>) {
    forall x :: x in ss ==> INT_MIN <= x.value <= INT_MAX
  }

  /** Saved lines set what they were saved for, in order, and hold no newline. */
  lemma {:induction false} SavedLinesObeyed(c: Config, banner: string, ss: seq<Setting>)
    requires InRange(ss) && SettingOf(banner).None? && '\n' !in banner
    ensures ObeyAll(c, SavedLines(banner, ss)) == SetAll(c, ss)
    ensures forall l :: l in SavedLines(banner, ss) ==> '\n' !in l
  {
    if ss == [] {
      assert [banner][..0] == [];
    } else {
      var before, x := ss[..|ss| - 1], ss[|ss| - 1];
      SavedLinesObeyed(c, banner, before);
      SavedLineSets(x.key, x.value);
      var lines := SavedLines(banner, before);
      assert (lines + [SaveLine(x.key, x.value)])[..|lines|] == lines;
    }
  }

  lemma BannerIgnored()
    ensures SettingOf(BANNER).None? && '\n' !in BANNER
  {
    assert Find(BANNER, '#') == 0;
    assert '\n' !in "# PSP DevLink " && '\n' !in "Desktop Companion " && '\n' !in "Configuration";
  }

  lemma SetAllSnoc(c: Config, before: seq<Setting>, x: Setting)
    ensures SetAll(c, before + [x]) == Set(SetAll(c, before), x.key, x.value)
  {
    assert (before + [x])[..|before|] == before;
  }

  lemma SetAllRestores(saved: Config, current: Config)
    ensures SetAll(current, SettingsOf(saved)) == saved
  {
    var b1 := [Setting(Telemetry, saved.telemetry)];
    var b2 := b1 + [Setting(GitEvery, saved.git)];
    var b3 := b2 + [Setting(NotifEvery, saved.notif)];
    var b4 := b3 + [Setting(EnableGit, Flag(saved.gitOn))];
    SetAllSnoc(current, [], b1[0]);
    SetAllSnoc(current, b1, b2[1]);
    SetAllSnoc(current, b2, b3[2]);
    SetAllSnoc(current, b3, b4[3]);
    SetAllSnoc(current, b4, Setting(EnableNotif, Flag(saved.notifOn)));
    assert [] + b1 == b1;
    assert SettingsOf(saved) == b4 + [Setting(EnableNotif, Flag(saved.notifOn))];
  }

  /** A file of whole lines is obeyed line by line. */
  lemma LoadLines(c: Config, lines: seq<string>)
    requires forall l :: l in lines ==> '\n' !in l
    ensures Load(c, Unlines(lines)) == ObeyAll(c, lines)
  {
    LinesOfUnlines(lines, []);
    assert Unlines(lines) + [] == Unlines(lines);
    assert lines + Lines([]) == lines;
  }

  /** Loading what was saved restores every setting, whatever was in force before. */
  lemma ConfigRoundTrip(saved: Config, current: Config)
    requires INT_MIN <= saved.telemetry <= INT_MAX && INT_MIN <= saved.git <= INT_MAX
             && INT_MIN <= saved.notif <= INT_MAX
    ensures Load(current, Save(saved)) == saved
  {
    var ss := SettingsOf(saved);
    BannerIgnored();
    SavedLinesObeyed(current, BANNER, ss);
    LoadLines(current, SavedLines(BANNER, ss));
    SetAllRestores(saved, current);
  }

  /** A file of one setting, under the names the documentation gives them, sets that and nothing else. */
  lemma KeysAsWritten(c: Config, v: int)
    requires INT_MIN <= v <= INT_MAX
    ensures Load(c, "telemetry_interval_ms" + " = " + PrintInt(v)) == c.(telemetry := v)
    ensures Load(c, "git_interval_ms" + " = " + PrintInt(v)) == c.(git := v)
    ensures Load(c, "notif_interval_ms" + " = " + PrintInt(v)) == c.(notif := v)
    ensures Load(c, "enable_git" + " = " + PrintInt(v)) == c.(gitOn := v != 0)
    ensures Load(c, "enable_notif" + " = " + PrintInt(v)) == c.(notifOn := v != 0)
  {
    LoadOne(c, Telemetry, "telemetry_interval_ms", v);
    LoadOne(c, GitEvery, "git_interval_ms", v);
    LoadOne(c, NotifEvery, "notif_interval_ms", v);
    LoadOne(c, EnableGit, "enable_git", v);
    LoadOne(c, EnableNotif, "enable_notif", v);
  }

  lemma LoadOne(c: Config, k: Key, name: string, v: int)
    requires INT_MIN <= v <= INT_MAX && name == NameOf(k)
    ensures Load(c, name + " = " + PrintInt(v)) == Set(c, k, v)
  {
    SavedLineSets(k, v);
    var line := SaveLine(k, v);
    LineAlone(c, line);
    assert Obey(c, line) == Set(c, k, v);
    assert line == name + " = " + PrintInt(v);
  }

  lemma LineAlone(c: Config, line: string)
    requires line != "" && '\n' !in line
    ensures Load(c, line) == Obey(c, line)
  {
    FindFirst(line, "", '\n');
    assert line + "" == line;
    LastLine(line);
    ObeyOne(c, line);
    assert Lines(line) == [line];
  }

  lemma ObeyOne(c: Config, line: string)
    ensures ObeyAll(c, [line]) == Obey(c, line)
  {
    assert [line][..0] == [];
  }

  // ----- arbitrary files -----

  /** What a key is set to; flags count as 0 and 1. */
  function ValueOf(c: Config, k: Key): int {
    match k
    case Telemetry => c.telemetry
    case GitEvery => c.git
    case NotifEvery => c.notif
    case EnableGit => Flag(c.gitOn)
    case EnableNotif => Flag(c.notifOn)
  }

  function Stored(k: Key, v: int): int {
    if k.EnableGit? || k.EnableNotif? then (if v != 0 then 1 else 0) else v
  }

  predicate Sets(line: string, k: Key) {
    SettingOf(line).Some? && SettingOf(line).value.key == k
  }

  lemma OtherKeyKept(c: Config, line: string, k: Key)
    requires !Sets(line, k)
    ensures ValueOf(Obey(c, line), k) == ValueOf(c, k)
  {
  }

  lemma {:induction false} UnsetKept(c: Config, lines: seq<string>, k: Key)
    requires forall l :: l in lines ==> !Sets(l, k)
    ensures ValueOf(ObeyAll(c, lines), k) == ValueOf(c, k)
  {
    if lines != [] {
      UnsetKept(c, lines[..|lines| - 1], k);
      OtherKeyKept(ObeyAll(c, lines[..|lines| - 1]), lines[|lines| - 1], k);
    }
  }

  lemma OwnKeySet(c: Config, line: string, k: Key)
    requires Sets(line, k)
    ensures ValueOf(Obey(c, line), k) == Stored(k, SettingOf(line).value.value)
  {
  }

  /**
   In any file each key ends up with its last parseable assignment, the one no later line overrides;
   comments, unknown keys and unparseable values change nothing, and a key nothing assigns keeps its value.
   */
  lemma {:induction false} LastAssignmentWins(c: Config, lines: seq<string>, i: nat, k: Key)
    requires i <= |lines| && (i > 0 ==> Sets(lines[i - 1], k)) && forall l :: l in lines[i..] ==> !Sets(l, k)
    ensures ValueOf(ObeyAll(c, lines), k) ==
            if i == 0 then ValueOf(c, k) else Stored(k, SettingOf(lines[i - 1]).value.value)
  {
    if i == 0 {
      assert lines[0..] == lines;
      UnsetKept(c, lines, k);
    } else {
      var before, last := lines[..|lines| - 1], lines[|lines| - 1];
      if i < |lines| {
        assert last == lines[i..][|lines| - 1 - i] && before[i..] == lines[i..][..|before| - i];
        LastAssignmentWins(c, before, i, k);
        OtherKeyKept(ObeyAll(c, before), last, k);
      } else {
        OwnKeySet(ObeyAll(c, before), last, k);
      }
    }
  }
}
