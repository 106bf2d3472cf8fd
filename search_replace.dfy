/**
 * The content substitution: `wp search-replace <old> <new> wp_posts` replaces
 * every occurrence of one string by another in the post table. The command is
 * handed over as one command line, which the shell splits into words at blanks.
 */
module SearchReplace {

  /** `s` with every occurrence of `pattern`, scanned left to right without overlap, replaced by `replacement`. */
  function ReplaceAll(s: string, pattern: string, replacement: string): string
    decreases |s|
  {
    if pattern == [] || |s| < |pattern| then s
    else if s[..|pattern|] == pattern then replacement + ReplaceAll(s[|pattern|..], pattern, replacement)
    else [s[0]] + ReplaceAll(s[1..], pattern, replacement)
  }

  /** Whether `pattern` occurs in `s` starting at index `i`. */
  predicate OccursAt(s: string, pattern: string, i: nat) {
    i + |pattern| <= |s| && s[i..i + |pattern|] == pattern
  }

  /** Replacing a string by itself changes nothing: a substitution whose two URLs are the same leaves the content as it was. */
  lemma {:induction false} ReplaceWithItself(s: string, pattern: string)
    ensures ReplaceAll(s, pattern, pattern) == s
    decreases |s|
  {
    if pattern == [] || |s| < |pattern| {
    } else if s[..|pattern|] == pattern {
      ReplaceWithItself(s[|pattern|..], pattern);
      assert s == s[..|pattern|] + s[|pattern|..];
    } else {
      ReplaceWithItself(s[1..], pattern);
      assert s == [s[0]] + s[1..];
    }
  }

  /** Content in which the old string does not occur is left as it was. */
  lemma {:induction false} ReplaceAbsent(s: string, pattern: string, replacement: string)
    requires forall i: nat :: !OccursAt(s, pattern, i)
    ensures ReplaceAll(s, pattern, replacement) == s
    decreases |s|
  {
    if pattern == [] || |s| < |pattern| {
    } else {
      assert !OccursAt(s, pattern, 0);
      assert s[..|pattern|] == s[0..0 + |pattern|];
      forall i: nat ensures !OccursAt(s[1..], pattern, i) {
        assert !OccursAt(s, pattern, i + 1);
        if i + |pattern| <= |s[1..]| {
          assert s[1..][i..i + |pattern|] == s[i + 1..i + 1 + |pattern|];
        }
      }
      ReplaceAbsent(s[1..], pattern, replacement);
      assert s == [s[0]] + s[1..];
    }
  }

  /** Content that is exactly the old string becomes exactly the new one. */
  lemma ReplaceWhole(pattern: string, replacement: string)
    requires pattern != []
    ensures ReplaceAll(pattern, pattern, replacement) == replacement
  {
    assert pattern[..|pattern|] == pattern;
    assert pattern[|pattern|..] == [];
  }

  /** The characters at which the shell splits a command line into words. */
  predicate IsBlank(c: char) {
    c == ' ' || c == '\t' || c == '\n'
  }

  /** The number of non-blank characters `s` starts with. */
  function WordRun(s: string): (n: nat)
    ensures n <= |s|
    ensures forall i :: 0 <= i < n ==> !IsBlank(s[i])
    ensures n < |s| ==> IsBlank(s[n])
    decreases |s|
  {
    if s != [] && !IsBlank(s[0]) then 1 + WordRun(s[1..]) else 0
  }

  /** The words of a command line: its maximal runs of non-blank characters, in order. */
  function Words(s: string): seq<string>
    decreases |s|
  {
    if s == [] then []
    else if IsBlank(s[0]) then Words(s[1..])
    else
      var n := WordRun(s);
      [s[..n]] + Words(s[n..])
  }

  predicate NoBlank(w: string) {
    forall i :: 0 <= i < |w| ==> !IsBlank(w[i])
  }

  /** The run of non-blanks at the start of `a + t` is that of `a` when `t` starts with a blank. */
  lemma {:induction false} WordRunOfAppend(a: string, t: string)
    requires t != [] && IsBlank(t[0])
    ensures WordRun(a + t) == WordRun(a)
    decreases |a|
  {
    if a == [] {
      assert a + t == t;
    } else if !IsBlank(a[0]) {
      assert (a + t)[1..] == a[1..] + t;
      WordRunOfAppend(a[1..], t);
    }
  }

  /** A blank between two strings separates their words. */
  lemma {:induction false} WordsOfAppend(a: string, b: string)
    ensures Words(a + " " + b) == Words(a) + Words(b)
    decreases |a|
  {
    var s := a + " " + b;
    if a == [] {
      assert s == " " + b && s[1..] == b;
    } else if IsBlank(a[0]) {
      assert s[1..] == a[1..] + " " + b;
      WordsOfAppend(a[1..], b);
    } else {
      WordRunOfAppend(a, " " + b);
      assert s == a + (" " + b);
      var n := WordRun(a);
      assert s[..n] == a[..n];
      assert s[n..] == a[n..] + " " + b;
      WordsOfAppend(a[n..], b);
    }
  }

  /** A non-empty string without blanks is one word. */
  lemma {:induction false} WordsOfWord(w: string)
    requires w != [] && NoBlank(w)
    ensures Words(w) == [w]
  {
    WordRunOfWord(w);
    assert w[..|w|] == w && w[|w|..] == [];
  }

  lemma {:induction false} WordRunOfWord(w: string)
    requires NoBlank(w)
    ensures WordRun(w) == |w|
    decreases |w|
  {
    if w != [] {
      WordRunOfWord(w[1..]);
    }
  }

  /** Words joined by single blanks. */
  function Unwords(ws: seq<string>): string {
    if ws == [] then [] else if |ws| == 1 then ws[0] else ws[0] + " " + Unwords(ws[1..])
  }

  /** Whether WP-CLI reads a word as an option (`--name` or `--name=value`) rather than as a positional argument. */
  predicate IsOption(w: string) {
    |w| >= 2 && w[0] == '-' && w[1] == '-'
  }

  /** The positional arguments among the words, in order. */
  function Positional(ws: seq<string>): (ps: seq<string>)
    ensures |ps| <= |ws|
  {
    if ws == [] then []
    else if IsOption(ws[0]) then Positional(ws[1..])
    else [ws[0]] + Positional(ws[1..])
  }

  lemma {:induction false} PositionalOfAppend(a: seq<string>, b: seq<string>)
    ensures Positional(a + b) == Positional(a) + Positional(b)
    decreases |a|
  {
    if a == [] {
      assert a + b == b;
    } else {
      assert (a + b)[1..] == a[1..] + b;
      PositionalOfAppend(a[1..], b);
    }
  }

  /**
   * The command line as the source builds it (src/Sanitizer.php:97): the two
   * URLs pasted unquoted between the command name and the table, all joined by
   * single blanks.
   */
  function CommandLine(oldUrl: string, newUrl: string): string {
    Unwords(["search-replace", oldUrl, newUrl, "wp_posts", "--verbose"])
  }

  /**
   * The effect on the post content of the command as written: search-replace
   * takes its first two positional arguments after the command name as the
   * old and the new string; with fewer it refuses to run.
   */
  function ReplacePostContentsAsWritten(content: string, oldUrl: string, newUrl: string): string {
    var args := Positional(Words(CommandLine(oldUrl, newUrl)));
    if |args| >= 3 then ReplaceAll(content, args[1], args[2]) else content
  }

  /** The intended effect: every occurrence of the old URL in the post content becomes the new URL. */
  function ReplacePostContents(content: string, oldUrl: string, newUrl: string): string {
    ReplaceAll(content, oldUrl, newUrl)
  }

  /** A URL that is one plain word (non-empty, no blank, not an option) reaches search-replace intact. */
  predicate IsPlainWord(w: string) {
    w != [] && NoBlank(w) && !IsOption(w)
  }

  /** Five strings joined by blanks, nested to the right. */
  lemma UnwordsFive(a: string, b: string, c: string, d: string, e: string)
    ensures Unwords([a, b, c, d, e]) == a + " " + (b + " " + (c + " " + (d + " " + e)))
  {
    assert [d, e][1..] == [e];
    assert Unwords([d, e]) == d + " " + e;
    assert [c, d, e][1..] == [d, e];
    assert Unwords([c, d, e]) == c + " " + Unwords([d, e]);
    assert [b, c, d, e][1..] == [c, d, e];
    assert Unwords([b, c, d, e]) == b + " " + Unwords([c, d, e]);
    assert [a, b, c, d, e][1..] == [b, c, d, e];
  }

  /** Five strings joined by blanks, of which the first and the last two are single words. */
  lemma WordsOfFive(name: string, o: string, n: string, table: string, flag: string)
    requires name != [] && NoBlank(name) && table != [] && NoBlank(table) && flag != [] && NoBlank(flag)
    ensures Words(Unwords([name, o, n, table, flag])) == [name] + (Words(o) + (Words(n) + [table, flag]))
  {
    UnwordsFive(name, o, n, table, flag);
    var r3 := table + " " + flag;
    var r2 := n + " " + r3;
    var r1 := o + " " + r2;
    assert name + " " + r1 == name + " " + (o + " " + (n + " " + (table + " " + flag)));
    WordsOfAppend(name, r1);
    WordsOfAppend(o, r2);
    WordsOfAppend(n, r3);
    WordsOfAppend(table, flag);
    WordsOfWord(name);
    WordsOfWord(table);
    WordsOfWord(flag);
    assert [table] + [flag] == [table, flag];
  }

  /**
   * The positional arguments of such a line: the first word, the positional
   * words of the two middle strings and the fourth word, when the fifth is an
   * option and the first and fourth are not.
   */
  lemma ArgumentsOfFive(name: string, o: string, n: string, table: string, flag: string)
    requires name != [] && NoBlank(name) && table != [] && NoBlank(table) && flag != [] && NoBlank(flag)
    requires !IsOption(name) && !IsOption(table) && IsOption(flag)
    ensures Positional(Words(Unwords([name, o, n, table, flag]))) ==
      [name] + (Positional(Words(o)) + (Positional(Words(n)) + [table]))
  {
    WordsOfFive(name, o, n, table, flag);
    var os, ns := Words(o), Words(n);
    PositionalOfAppend([name], os + (ns + [table, flag]));
    PositionalOfAppend(os, ns + [table, flag]);
    PositionalOfAppend(ns, [table, flag]);
    assert [table, flag][1..] == [flag];
    assert [flag][1..] == [];
    assert [name][1..] == [];
  }

  /** The command name and the table are positional words, the flag an option; none has a blank. */
  lemma FixedWords()
    ensures NoBlank("search-replace") && NoBlank("wp_posts") && NoBlank("--verbose")
    ensures !IsOption("search-replace") && !IsOption("wp_posts") && IsOption("--verbose")
  {
  }

  /** The words of the command line: the command name, the words of each URL, the table and the flag. */
  lemma CommandWords(oldUrl: string, newUrl: string)
    ensures Words(CommandLine(oldUrl, newUrl)) == ["search-replace"] + (Words(oldUrl) + (Words(newUrl) + ["wp_posts", "--verbose"]))
  {
    FixedWords();
    WordsOfFive("search-replace", oldUrl, newUrl, "wp_posts", "--verbose");
  }

  /** The positional arguments of the command line. */
  lemma CommandArguments(oldUrl: string, newUrl: string)
    ensures Positional(Words(CommandLine(oldUrl, newUrl))) ==
      ["search-replace"] + (Positional(Words(oldUrl)) + (Positional(Words(newUrl)) + ["wp_posts"]))
  {
    FixedWords();
    ArgumentsOfFive("search-replace", oldUrl, newUrl, "wp_posts", "--verbose");
  }

  /** When both URLs are plain words, the command as written has the intended effect. */
  lemma AsWrittenAgreesOnPlainWords(content: string, oldUrl: string, newUrl: string)
    requires IsPlainWord(oldUrl) && IsPlainWord(newUrl)
    ensures ReplacePostContentsAsWritten(content, oldUrl, newUrl) == ReplacePostContents(content, oldUrl, newUrl)
  {
    CommandArguments(oldUrl, newUrl);
    WordsOfWord(oldUrl);
    WordsOfWord(newUrl);
  }

  /** An old URL made of two words separated by a blank reaches search-replace as two arguments. */
  lemma {:induction false} BlankSplitsOldUrl(a: string, b: string, newUrl: string)
    requires IsPlainWord(a) && IsPlainWord(b) && IsPlainWord(newUrl)
    ensures Positional(Words(CommandLine(a + " " + b, newUrl))) == ["search-replace", a, b, newUrl, "wp_posts"]
  {
    CommandArguments(a + " " + b, newUrl);
    WordsOfAppend(a, b);
    WordsOfWord(a);
    WordsOfWord(b);
    WordsOfWord(newUrl);
    PositionalOfAppend([a], [b]);
    assert [a][1..] == [] && [b][1..] == [] && [newUrl][1..] == [];
  }

  /**
   * A URL with a space in it is cut in two: for an old URL "a b" and a new
   * URL "a-b", search-replace is asked to replace "a" by "b".
   */
  lemma SpaceSplitsOldUrl()
    ensures Positional(Words(CommandLine("a b", "a-b"))) == ["search-replace", "a", "b", "a-b", "wp_posts"]
  {
    assert IsPlainWord("a") && IsPlainWord("b") && IsPlainWord("a-b");
    BlankSplitsOldUrl("a", "b", "a-b");
    assert "a" + " " + "b" == "a b";
  }

  /** So the content "x a b" becomes "x b b" where "x a-b" was meant. */
  lemma SpaceManglesContent()
    ensures ReplacePostContents("x a b", "a b", "a-b") == "x a-b"
    ensures ReplacePostContentsAsWritten("x a b", "a b", "a-b") == "x b b"
  {
    SpaceSplitsOldUrl();
    ReplaceIntended();
    ReplaceAsWritten();
  }

  lemma ReplaceIntended()
    ensures ReplaceAll("x a b", "a b", "a-b") == "x a-b"
  {
    ReplaceWhole("a b", "a-b");
    assert ReplaceAll(" a b", "a b", "a-b") == " " + ReplaceAll("a b", "a b", "a-b");
  }

  lemma ReplaceAsWritten()
    ensures ReplaceAll("x a b", "a", "b") == "x b b"
  {
    assert ReplaceAll("", "a", "b") == "";
    assert ReplaceAll("b", "a", "b") == "b";
    assert ReplaceAll(" b", "a", "b") == " b";
    assert ReplaceAll("a b", "a", "b") == "b b";
    assert ReplaceAll(" a b", "a", "b") == " b b";
  }
}
