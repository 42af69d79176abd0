/** How the collector turns typed answers into settings: defaults for empty
    answers, yes/no questions, numbered menus, fixed lookup tables and the
    comma-separated language list. */
module Menus {
  import opened Options
  import opened PyStr

  /** `input().strip() or d`: the stripped answer, or the default when
      nothing but spaces was typed. */
  function Answer(raw: string, d: string): (r: string)
    ensures r == d || r == Strip(raw)
    ensures Strip(raw) != "" ==> r == Strip(raw)
  {
    var a := Strip(raw);
    if a == "" then d else a
  }

  /** `input().strip().lower() != 'n'`: every answer but an explicit n (or N)
      is a yes. */
  predicate Agrees(raw: string) {
    Lower(Strip(raw)) != "n"
  }

  /** The 0-based position chosen in a numbered menu of `n` items: the menus
      accept `choice` when `choice.isdigit() and 1 <= int(choice) <= n`. */
  function MenuIndex(choice: string, n: nat): (r: Option<nat>)
    ensures r.Some? ==> r.value < n
    ensures r.Some? <==> IsDigits(choice) && 1 <= DigitsValue(choice) <= n
    ensures r.Some? ==> r.value == DigitsValue(choice) - 1
  {
    if IsDigits(choice) && 1 <= DigitsValue(choice) <= n then Some(DigitsValue(choice) - 1) else None
  }

  /** A numbered menu with a fallback: the chosen item, or `fallback` for any
      answer that is not a listed number. With the fallback among the items
      the result is always one of them. */
  function MenuPick(choice: string, items: seq<string>, fallback: string): (r: string)
    ensures r in items || r == fallback
    ensures fallback in items ==> r in items
  {
    match MenuIndex(choice, |items|)
    case Some(i) => items[i]
    case None => fallback
  }

  /** Typing the number `n` of a listed item picks that item, also with
      leading zeros. */
  lemma {:induction false} MenuPickNumber(zeros: nat, n: nat, items: seq<string>, fallback: string)
    requires 1 <= n <= |items|
    ensures MenuPick(Zeros(zeros) + NatToString(n), items, fallback) == items[n - 1]
  {
    LeadingZeros(zeros, NatToString(n));
  }

  /** An answer that is not a listed number gives the fallback. */
  lemma MenuPickFallback(choice: string, items: seq<string>, fallback: string)
    requires MenuIndex(choice, |items|).None?
    ensures MenuPick(choice, items, fallback) == fallback
  {
  }

  function Zeros(k: nat): (z: string)
    ensures |z| == k && forall i :: 0 <= i < k ==> z[i] == '0'
  {
    if k == 0 then "" else "0" + Zeros(k - 1)
  }

  /** Leading zeros do not change the value of a digit string. */
  lemma {:induction false} LeadingZeros(k: nat, s: string)
    requires IsDigits(s)
    ensures IsDigits(Zeros(k) + s) && DigitsValue(Zeros(k) + s) == DigitsValue(s)
    decreases |s|
  {
    var t := Zeros(k) + s;
    assert IsDigits(t) by {
      forall i | 0 <= i < |t| ensures IsDigit(t[i]) {
        if i >= k { assert t[i] == s[i - k]; }
      }
    }
    if |s| == 1 {
      ZerosValue(k);
      assert t[..|t| - 1] == Zeros(k);
    } else {
      LeadingZeros(k, s[..|s| - 1]);
      assert t[..|t| - 1] == Zeros(k) + s[..|s| - 1];
    }
  }

  lemma {:induction false} ZerosValue(k: nat)
    ensures DigitsValue(Zeros(k)) == 0
  {
    if k > 0 {
      var z := Zeros(k);
      assert z[..k - 1] == Zeros(k - 1) by {
        ZerosPrefix(k);
      }
      ZerosValue(k - 1);
    }
  }

  lemma ZerosPrefix(k: nat)
    requires k > 0
    ensures Zeros(k)[..k - 1] == Zeros(k - 1)
  {
  }

  const Regions: seq<string> := ["America", "Europe", "Asia", "Africa", "Australia", "Pacific"]
  const Locales: seq<string> := ["en_US.UTF-8", "en_GB.UTF-8", "de_DE.UTF-8", "fr_FR.UTF-8", "es_ES.UTF-8"]
  const Layouts: seq<string> := ["us", "uk", "de", "fr", "es", "dvorak", "colemak"]
  const Shells: seq<string> := ["zsh", "bash", "fish"]
  const Terminals: seq<string> := ["kitty", "alacritty", "foot"]
  const Browsers: seq<string> := ["firefox", "chromium", "brave"]

  /** The timezone `configure_system` stores: `Region/City` for a listed
      region, otherwise `UTC` (and the city prompt is skipped). */
  function TimezoneFor(regionChoice: string, cityRaw: string): (tz: string)
    ensures MenuIndex(regionChoice, |Regions|).None? ==> tz == "UTC"
    ensures IsDigits(regionChoice) && 1 <= DigitsValue(regionChoice) <= |Regions| ==>
      tz == Regions[DigitsValue(regionChoice) - 1] + "/" + Answer(cityRaw, "New_York")
  {
    match MenuIndex(regionChoice, |Regions|)
    case Some(i) => Regions[i] + "/" + Answer(cityRaw, "New_York")
    case None => "UTC"
  }

  /** Typing the number `n` of a listed region, also with leading zeros,
      stores that region with the city typed (`New_York` when none). */
  lemma TimezoneNumber(zeros: nat, n: nat, cityRaw: string)
    requires 1 <= n <= |Regions|
    ensures TimezoneFor(Zeros(zeros) + NatToString(n), cityRaw) == Regions[n - 1] + "/" + Answer(cityRaw, "New_York")
  {
    LeadingZeros(zeros, NatToString(n));
  }

  const Filesystems: seq<string> := ["ext4", "btrfs", "xfs", "f2fs"]

  /** `fs_map[fs_choice]`: a strict lookup, any other answer raises
      `KeyError` (`None`). */
  function FilesystemFor(choice: string): (r: Option<string>)
    ensures r.Some? <==> choice in {"1", "2", "3", "4"}
    ensures r.Some? ==> r.value in Filesystems
  {
    if choice == "1" then Some("ext4")
    else if choice == "2" then Some("btrfs")
    else if choice == "3" then Some("xfs")
    else if choice == "4" then Some("f2fs")
    else None
  }

  const ThemeMap: map<string, string> := map["1" := "catppuccin", "2" := "tokyonight", "3" := "everforest",
                                             "4" := "nord", "5" := "dracula", "6" := "gruvbox"]
  const DisplayManagerMap: map<string, string> := map["1" := "sddm", "2" := "ly", "3" := "autologin"]

  /** `m.get(choice, d)`: the table entry, or the default for an unknown key. */
  function LookupOr(m: map<string, string>, choice: string, d: string): (r: string)
    ensures choice in m ==> r == m[choice]
    ensures choice !in m ==> r == d
    ensures d in m.Values ==> r in m.Values
  {
    if choice in m then m[choice] else d
  }

  /** `lang_map`: the packages each language number stands for. */
  function LanguagePackages(key: string): Option<seq<string>> {
    if |key| != 1 then None
    else match key[0]
      case '1' => Some(["python", "python-pip"])
      case '2' => Some(["nodejs", "npm"])
      case '3' => Some(["rust"])
      case '4' => Some(["go"])
      case '5' => Some(["base-devel", "gcc", "clang"])
      case _ => None
  }

  /** What one comma-separated token adds: the packages of its stripped key,
      nothing for an unknown token. */
  function TokenPackages(t: string): seq<string> {
    match LanguagePackages(Strip(t))
    case Some(p) => p
    case None => []
  }

  /** The concatenation, in token order, of what `f` gives for each token. */
  function Collect(tokens: seq<string>, f: string -> seq<string>): seq<string> {
    if tokens == [] then []
    else Collect(tokens[..|tokens| - 1], f) + f(tokens[|tokens| - 1])
  }

  /** `dev_languages` for a list of tokens: the tokens' packages in input
      order. */
  function LanguagesOf(tokens: seq<string>): seq<string> {
    Collect(tokens, TokenPackages)
  }

  /** What a list of tokens collects is what its parts collect, in order. */
  lemma {:induction false} CollectConcat(a: seq<string>, b: seq<string>, f: string -> seq<string>)
    ensures Collect(a + b, f) == Collect(a, f) + Collect(b, f)
    decreases |b|
  {
    if b == [] {
      assert a + b == a;
    } else {
      var b', last := b[..|b| - 1], b[|b| - 1];
      assert (a + b)[..|a + b| - 1] == a + b' && (a + b)[|a + b| - 1] == last;
      CollectConcat(a, b', f);
      assert Collect(b, f) == Collect(b', f) + f(last);
      assert Collect(a, f) + Collect(b', f) + f(last) == Collect(a, f) + (Collect(b', f) + f(last));
    }
  }

  /** Exactly what the tokens give is collected: every collected element
      comes from some token, and everything every token gives is collected. */
  lemma {:induction false} CollectExact(tokens: seq<string>, f: string -> seq<string>)
    ensures forall x :: x in Collect(tokens, f) <==> exists i :: 0 <= i < |tokens| && x in f(tokens[i])
  {
    if tokens != [] {
      var init := tokens[..|tokens| - 1];
      CollectExact(init, f);
      forall x
        ensures x in Collect(tokens, f) <==> exists i :: 0 <= i < |tokens| && x in f(tokens[i])
      {
        if x in Collect(init, f) {
          var i :| 0 <= i < |init| && x in f(init[i]);
          assert tokens[i] == init[i];
        }
        if exists i :: 0 <= i < |tokens| && x in f(tokens[i]) {
          var i :| 0 <= i < |tokens| && x in f(tokens[i]);
          if i < |init| {
            assert tokens[i] == init[i];
          }
        }
      }
    }
  }

  /** Tokens that give nothing contribute nothing. */
  lemma {:induction false} CollectNothing(tokens: seq<string>, f: string -> seq<string>)
    requires forall i :: 0 <= i < |tokens| ==> f(tokens[i]) == []
    ensures Collect(tokens, f) == []
  {
    if tokens != [] {
      CollectNothing(tokens[..|tokens| - 1], f);
    }
  }

  /** The language selection in terms of the typed tokens: a package is
      selected exactly when some token names a language that has it, and a
      list of unknown tokens selects nothing. */
  lemma LanguagesExact(tokens: seq<string>)
    ensures forall x :: x in LanguagesOf(tokens) <==>
      exists i :: 0 <= i < |tokens| && x in TokenPackages(tokens[i])
    ensures (forall i :: 0 <= i < |tokens| ==> LanguagePackages(Strip(tokens[i])).None?) ==>
      LanguagesOf(tokens) == []
  {
    CollectExact(tokens, TokenPackages);
    if forall i :: 0 <= i < |tokens| ==> LanguagePackages(Strip(tokens[i])).None? {
      CollectNothing(tokens, TokenPackages);
    }
  }

  /** The `dev_languages` loop: for each comma token whose stripped form is a
      key, extend the list with that key's packages. */
  method SelectLanguages(answer: string) returns (langs: seq<string>)
    ensures langs == LanguagesOf(SplitOn(answer, ','))
  {
    var tokens := SplitOn(answer, ',');
    langs := [];
    var i := 0;
    while i < |tokens|
      invariant 0 <= i <= |tokens|
      invariant langs == Collect(tokens[..i], TokenPackages)
    {
      match LanguagePackages(Strip(tokens[i])) {
        case Some(p) => langs := langs + p;
        case None =>
      }
      assert tokens[..i + 1][..i] == tokens[..i];
      i := i + 1;
    }
    assert tokens[..i] == tokens;
  }

  /** With the default answer `1,2,5`: Python, Node.js and C/C++. */
  lemma DefaultLanguages()
    ensures LanguagesOf(SplitOn("1,2,5", ',')) ==
      ["python", "python-pip", "nodejs", "npm", "base-devel", "gcc", "clang"]
  {
    DefaultTokens();
    DefaultCollect();
  }

  lemma DefaultCollect()
    ensures LanguagesOf(["1", "2", "5"]) ==
      ["python", "python-pip", "nodejs", "npm", "base-devel", "gcc", "clang"]
  {
    KeyPackages("1");
    KeyPackages("2");
    KeyPackages("5");
    CollectThree("1", "2", "5", TokenPackages);
    DefaultConcat(TokenPackages("1"), TokenPackages("2"), TokenPackages("5"));
  }

  lemma DefaultConcat(p1: seq<string>, p2: seq<string>, p5: seq<string>)
    requires p1 == ["python", "python-pip"] && p2 == ["nodejs", "npm"]
    requires p5 == ["base-devel", "gcc", "clang"]
    ensures p1 + p2 + p5 == ["python", "python-pip", "nodejs", "npm", "base-devel", "gcc", "clang"]
  {
  }

  lemma CollectThree(a: string, b: string, c: string, f: string -> seq<string>)
    ensures Collect([a, b, c], f) == f(a) + f(b) + f(c)
  {
    assert [a][..0] == [];
    assert Collect([a], f) == f(a);
    assert [a, b][..1] == [a];
    assert Collect([a, b], f) == f(a) + f(b);
    assert [a, b, c][..2] == [a, b];
  }

  lemma KeyPackages(k: string)
    requires k in {"1", "2", "5"}
    ensures TokenPackages(k) == LanguagePackages(k).value
  {
    StripFixed(k);
  }

  lemma DefaultTokens()
    ensures SplitOn("1,2,5", ',') == ["1", "2", "5"]
  {
    assert "5"[1..] == "" && ['5'] + "" == "5";
    assert SplitOn("5", ',') == ["5"];
    assert ",5"[1..] == "5";
    assert SplitOn(",5", ',') == ["", "5"];
    assert "2,5"[1..] == ",5" && ['2'] + "" == "2" && ["", "5"][1..] == ["5"];
    assert SplitOn("2,5", ',') == ["2", "5"];
    assert ",2,5"[1..] == "2,5";
    assert SplitOn(",2,5", ',') == ["", "2", "5"];
    assert "1,2,5"[1..] == ",2,5" && ['1'] + "" == "1" && ["", "2", "5"][1..] == ["2", "5"];
  }

  /** The editors: neovim when the answer contains the character 1, VS Code
      when it contains 2 (a substring test, so `12` picks both). */
  function EditorsFor(answer: string): (r: seq<string>)
    ensures "neovim" in r <==> '1' in answer
    ensures "code" in r <==> '2' in answer
    ensures forall e :: e in r ==> e in ["neovim", "code"]
    ensures |r| <= 2
  {
    (if '1' in answer then ["neovim"] else []) + (if '2' in answer then ["code"] else [])
  }
}
