/**
 * `TextCleaner` (src/extraction/text_cleaner.py): the fixed substitution
 * pipeline `clean` (URLs, e-mail addresses, whitespace, special characters,
 * bullet markers, case, stopwords, strip) and the line-by-line section
 * splitter `extract_sections`.
 *
 * Each regular-expression substitution is modelled as a left-to-right scan
 * that replaces the leftmost match and resumes after it, as `re.sub` does.
 * The e-mail pattern is left abstract: `clean` takes the e-mail step as a
 * parameter.
 */
module TextCleaner {
  import opened TextUtil

  /** The constructor's two switches. */
  datatype Cleaner = Cleaner(removeStopwords: bool, lowercase: bool)

  /** `TextCleaner()`: stopwords kept, text lowercased. */
  const DefaultCleaner := Cleaner(false, true)

  const Stopwords: seq<string> := [
    "the", "a", "an", "and", "or", "but", "in", "on", "at", "to", "for",
    "of", "with", "by", "from", "as", "is", "was", "are", "were", "been",
    "be", "have", "has", "had", "do", "does", "did", "will", "would",
    "could", "should", "may", "might", "must", "can", "this", "that",
    "these", "those", "i", "you", "he", "she", "it", "we", "they"]

  // ---------------------------------------------------------------- URLs

  /**
   * One character of the URL pattern's repeated group: letters, digits, the
   * range `$`..`_`, and `! * \ ( ) ,`. The `%XX` branch adds nothing, since
   * `%` and the hex digits are already in the range.
   */
  predicate IsUrlChar(c: char) {
    IsAsciiLetter(c) || IsDigit(c) || ('$' <= c <= '_')
    || c == '!' || c == '*' || c == '\\' || c == '(' || c == ')' || c == ','
  }

  /** End of the run of URL characters that starts at `j`; the group's `+` is greedy. */
  function UrlRunEnd(t: string, j: nat): (e: nat)
    requires j <= |t|
    ensures j <= e <= |t|
    ensures forall k :: j <= k < e ==> IsUrlChar(t[k])
    ensures e == |t| || !IsUrlChar(t[e])
    decreases |t| - j
  {
    if j < |t| && IsUrlChar(t[j]) then UrlRunEnd(t, j + 1) else j
  }

  /** Length of the `http[s]?://` prefix at `i`, or 0 where there is none. */
  function SchemeAt(t: string, i: nat): (n: nat)
    ensures n == 0 || n == 7 || n == 8
    ensures n != 0 ==> i + n <= |t|
  {
    if i + 4 <= |t| && t[i] == 'h' && t[i + 1] == 't' && t[i + 2] == 't' && t[i + 3] == 'p' then
      if i + 8 <= |t| && t[i + 4] == 's' && t[i + 5] == ':' && t[i + 6] == '/' && t[i + 7] == '/' then 8
      else if i + 7 <= |t| && t[i + 4] == ':' && t[i + 5] == '/' && t[i + 6] == '/' then 7
      else 0
    else 0
  }

  /** End of the URL match starting at `i`: a scheme followed by at least one URL character. */
  function UrlEnd(t: string, i: nat): (r: Option<nat>)
    requires i <= |t|
    ensures r.Some? ==> i < r.value <= |t|
  {
    var n := SchemeAt(t, i);
    if n == 0 then None
    else
      var e := UrlRunEnd(t, i + n);
      if e == i + n then None else Some(e)
  }

  /**
   * `_remove_urls`: `re.sub` scans left to right; a URL match at the front is
   * deleted and the scan goes on after it, otherwise the first character stays.
   */
  function RemoveUrls(t: string): (r: string)
    ensures |r| <= |t|
    decreases |t|
  {
    if t == [] then []
    else
      var e := UrlEnd(t, 0);
      if e.Some? then RemoveUrls(t[e.value..]) else [t[0]] + RemoveUrls(t[1..])
  }

  /** Every scheme holds a colon. */
  lemma SchemeColon(t: string, i: nat)
    requires SchemeAt(t, i) != 0
    ensures ':' in t
  {
    if SchemeAt(t, i) == 8 {
      assert t[i + 5] == ':';
    } else {
      assert t[i + 4] == ':';
    }
  }

  /** Text without a colon holds no URL, so URL removal leaves it as it is. */
  lemma {:induction false} RemoveUrlsNoScheme(t: string)
    requires ':' !in t
    ensures RemoveUrls(t) == t
    decreases |t|
  {
    if t != [] {
      if SchemeAt(t, 0) != 0 {
        SchemeColon(t, 0);
      }
      assert forall k :: 0 <= k < |t[1..]| ==> t[1..][k] == t[k + 1];
      RemoveUrlsNoScheme(t[1..]);
      assert t == [t[0]] + t[1..];
    }
  }

  lemma {:induction false} UrlRunEndOfRun(t: string, j: nat, e: nat)
    requires j <= e <= |t|
    requires forall k :: j <= k < e ==> IsUrlChar(t[k])
    requires e == |t| || !IsUrlChar(t[e])
    ensures UrlRunEnd(t, j) == e
    decreases e - j
  {
    if j < e {
      UrlRunEndOfRun(t, j + 1, e);
    }
  }

  /** No scheme starts at the front of text without a colon that ends in a space. */
  lemma NoSchemeInPlainPrefix(a: string, rest: string)
    requires a != [] && ':' !in a && a[|a| - 1] == ' '
    ensures SchemeAt(a + rest, 0) == 0
  {
  }

  /** Where no URL starts at the front, URL removal keeps the first character. */
  lemma RemoveUrlsKeep(t: string)
    requires t != [] && SchemeAt(t, 0) == 0
    ensures RemoveUrls(t) == [t[0]] + RemoveUrls(t[1..])
  {
  }

  /** The tail of text without a colon that ends in a space is such text again. */
  lemma PlainTail(a: string)
    requires a != [] && ':' !in a && a[|a| - 1] == ' '
    ensures ':' !in a[1..] && (a[1..] == [] || a[1..][|a[1..]| - 1] == ' ')
  {
    assert forall k :: 0 <= k < |a[1..]| ==> a[1..][k] == a[k + 1];
  }

  /** URL removal passes over text without a colon that ends in a space. */
  lemma {:induction false} RemoveUrlsPrefix(a: string, rest: string)
    requires ':' !in a && (a == [] || a[|a| - 1] == ' ')
    ensures RemoveUrls(a + rest) == a + RemoveUrls(rest)
    decreases |a|
  {
    if a == [] {
      assert a + rest == rest;
    } else {
      var t := a + rest;
      NoSchemeInPlainPrefix(a, rest);
      RemoveUrlsKeep(t);
      assert t[1..] == a[1..] + rest;
      PlainTail(a);
      RemoveUrlsPrefix(a[1..], rest);
      assert t[0] == a[0] && a == [a[0]] + a[1..];
    }
  }

  predicate AllUrlChars(s: string) {
    forall c | c in s :: IsUrlChar(c)
  }

  /** A scheme, a run of URL characters and a stop character: the match ends at the stop. */
  lemma UrlAtScheme(scheme: string, host: string, b: string)
    requires scheme == "https://" || scheme == "http://"
    requires host != [] && AllUrlChars(host)
    requires b == [] || !IsUrlChar(b[0])
    ensures UrlEnd(scheme + host + b, 0) == Some(|scheme| + |host|)
  {
    var t := scheme + host + b;
    assert forall k :: 0 <= k < |scheme| ==> t[k] == scheme[k];
    assert SchemeAt(t, 0) == |scheme|;
    forall k | |scheme| <= k < |scheme| + |host|
      ensures IsUrlChar(t[k])
    {
      assert t[k] == host[k - |scheme|];
    }
    UrlRunEndOfRun(t, |scheme|, |scheme| + |host|);
  }

  /**
   * A URL between ordinary text is deleted and the text around it survives:
   * the text before it has no colon and ends in a space, and the text after
   * it starts with a character that cannot continue a URL.
   */
  lemma UrlBetweenWords(a: string, scheme: string, host: string, b: string)
    requires ':' !in a && (a == [] || a[|a| - 1] == ' ')
    requires scheme == "https://" || scheme == "http://"
    requires host != [] && AllUrlChars(host)
    requires b == [] || !IsUrlChar(b[0])
    ensures RemoveUrls(a + scheme + host + b) == a + RemoveUrls(b)
  {
    var u := scheme + host + b;
    assert a + scheme + host + b == a + u;
    RemoveUrlsPrefix(a, u);
    UrlAtScheme(scheme, host, b);
    assert u[|scheme| + |host|..] == b;
  }

  /** The URL step of the test: "portfolio" survives and the address is gone. */
  lemma UrlRemovalExample()
    ensures RemoveUrls("Check my portfolio at " + "https://" + "example.com" + " for more info")
         == "Check my portfolio at " + " for more info"
  {
    var a, host, b := "Check my portfolio at ", "example.com", " for more info";
    assert ':' !in a;
    assert AllUrlChars(host);
    UrlBetweenWords(a, "https://", host, b);
    RemoveUrlsNoScheme(b);
  }

  // ---------------------------------------------------------- whitespace

  /** No two whitespace characters in a row. */
  predicate NoDoubleSpace(s: string) {
    forall i :: 0 <= i < |s| - 1 ==> !IsSpace(s[i]) || !IsSpace(s[i + 1])
  }

  /** Every whitespace character is a plain space. */
  predicate SpacesAreBlanks(s: string) {
    forall i :: 0 <= i < |s| && IsSpace(s[i]) ==> s[i] == ' '
  }

  /** The characters of `s` that are not whitespace, in order. */
  function NonSpaceChars(s: string): string {
    if s == [] then [] else (if IsSpace(s[0]) then [] else [s[0]]) + NonSpaceChars(s[1..])
  }

  /** `re.sub(r'\s+', ' ', t)`: every maximal whitespace run becomes one space. */
  function CollapseSpaces(t: string): (r: string)
    decreases |t|
  {
    if t == [] then []
    else if IsSpace(t[0]) then
      var rest := TrimStart(t);
      " " + CollapseSpaces(rest)
    else [t[0]] + CollapseSpaces(t[1..])
  }

  /** `t` without its leading line feeds. */
  function DropNewlines(t: string): (r: string)
    ensures |r| <= |t| && (r == [] || r[0] != '\n')
  {
    if t != [] && t[0] == '\n' then DropNewlines(t[1..]) else t
  }

  /** `re.sub(r'\n+', '\n', t)`: every run of line feeds becomes one. */
  function SqueezeNewlines(t: string): (r: string)
    decreases |t|
  {
    if t == [] then []
    else if t[0] == '\n' then "\n" + SqueezeNewlines(DropNewlines(t[1..]))
    else [t[0]] + SqueezeNewlines(t[1..])
  }

  /** `_normalize_whitespace`. */
  function NormalizeWhitespace(t: string): string {
    SqueezeNewlines(CollapseSpaces(t))
  }

  lemma {:induction false} TrimStartNonSpace(t: string)
    ensures NonSpaceChars(TrimStart(t)) == NonSpaceChars(t)
    decreases |t|
  {
    if t != [] && IsSpace(t[0]) {
      TrimStartNonSpace(t[1..]);
    }
  }

  /**
   * Collapsing whitespace leaves only single blanks between the other
   * characters, which it keeps in order; the result starts with whitespace
   * exactly when the input does.
   */
  lemma {:induction false} CollapseSpacesSpec(t: string)
    ensures var r := CollapseSpaces(t);
      && SpacesAreBlanks(r) && NoDoubleSpace(r)
      && NonSpaceChars(r) == NonSpaceChars(t)
      && (r == [] <==> t == [])
      && (r != [] ==> (IsSpace(r[0]) <==> IsSpace(t[0])))
    decreases |t|
  {
    if t != [] {
      var r := CollapseSpaces(t);
      if IsSpace(t[0]) {
        var rest := TrimStart(t);
        CollapseSpacesSpec(rest);
        TrimStartNonSpace(t);
        var q := CollapseSpaces(rest);
        assert r == " " + q;
        assert q == [] || !IsSpace(q[0]);
        assert r[1..] == q;
      } else {
        CollapseSpacesSpec(t[1..]);
        assert r[1..] == CollapseSpaces(t[1..]);
      }
    }
  }

  lemma {:induction false} CollapseSingleSpaces(t: string)
    requires SpacesAreBlanks(t) && NoDoubleSpace(t)
    ensures CollapseSpaces(t) == t
    decreases |t|
  {
    if t != [] {
      var rest := t[1..];
      SingleSpacedTail(t);
      CollapseSingleSpaces(rest);
      if IsSpace(t[0]) {
        assert rest == [] || !IsSpace(rest[0]) by {
          if rest != [] {
            assert rest[0] == t[1];
          }
        }
        assert TrimStart(t) == rest;
        assert t == " " + rest;
      } else {
        assert t == [t[0]] + rest;
      }
    }
  }

  /** Dropping the first character keeps single-blank spacing. */
  lemma SingleSpacedTail(t: string)
    requires t != [] && SpacesAreBlanks(t) && NoDoubleSpace(t)
    ensures SpacesAreBlanks(t[1..]) && NoDoubleSpace(t[1..])
  {
    var rest := t[1..];
    assert forall i :: 0 <= i < |rest| ==> rest[i] == t[i + 1];
  }

  /** Text whose only whitespace is single blanks passes the whitespace step unchanged. */
  lemma PlainWordsUnchanged(t: string)
    requires SpacesAreBlanks(t) && NoDoubleSpace(t)
    ensures NormalizeWhitespace(t) == t
  {
    CollapseSingleSpaces(t);
    assert '\n' !in t by {
      assert forall i :: 0 <= i < |t| ==> t[i] != '\n';
    }
    SqueezeNoNewline(t);
  }

  lemma {:induction false} SqueezeNoNewline(t: string)
    requires '\n' !in t
    ensures SqueezeNewlines(t) == t
  {
    if t != [] {
      SqueezeNoNewline(t[1..]);
    }
  }

  /**
   * After `_normalize_whitespace` there is no line feed and no two whitespace
   * characters in a row, and the other characters are those of the input, in
   * order. The line-feed substitution never has anything to do.
   */
  lemma NormalizeWhitespaceSpec(t: string)
    ensures var r := NormalizeWhitespace(t);
      && r == CollapseSpaces(t)
      && '\n' !in r && SpacesAreBlanks(r) && NoDoubleSpace(r)
      && NonSpaceChars(r) == NonSpaceChars(t)
  {
    var c := CollapseSpaces(t);
    CollapseSpacesSpec(t);
    assert '\n' !in c;
    SqueezeNoNewline(c);
  }

  /** The whitespace step of the test: runs of spaces between words shrink to one. */
  lemma NormalizeWhitespaceExample()
    ensures NoDoubleSpace(NormalizeWhitespace("Python     Developer   with    experience"))
  {
    NormalizeWhitespaceSpec("Python     Developer   with    experience");
  }

  // --------------------------------------------------- special characters

  /**
   * The first character class of `_remove_special_chars` as it is written: the
   * UTF-8 bytes of the bullet glyphs read back as Mac Roman text, which
   * leaves the eleven characters ‚ Ä ¢ ó è ã ñ Ý ° ™ ´.
   */
  const MojibakeChars: seq<char> := [
    '\U{201A}', '\U{C4}', '\U{A2}', '\U{F3}', '\U{E8}', '\U{E3}',
    '\U{F1}', '\U{DD}', '\U{B0}', '\U{2122}', '\U{B4}']

  /** The glyphs that class was meant to hold: • ● ○ ■ □ ▪ ▫. */
  const BulletGlyphs: seq<char> := [
    '\U{2022}', '\U{25CF}', '\U{25CB}', '\U{25A0}', '\U{25A1}', '\U{25AA}', '\U{25AB}']

  /** `re.sub('[' + cls + ']', '', t)`. */
  function DeleteChars(t: string, cls: seq<char>): (r: string)
    ensures |r| <= |t|
  {
    if t == [] then [] else (if t[0] in cls then [] else [t[0]]) + DeleteChars(t[1..], cls)
  }

  /** What the second class of `_remove_special_chars` keeps: `\w`, `\s` and `. , - + # ( )`. */
  predicate IsPlainChar(c: char) {
    IsWordChar(c) || IsSpace(c) || c == '.' || c == ',' || c == '-' || c == '+' || c == '#' || c == '(' || c == ')'
  }

  /** One character of the second substitution: kept when plain, else a space. */
  function Blank(c: char): char {
    if IsPlainChar(c) then c else ' '
  }

  /** `re.sub(r'[^\w\s\n\.\,\-\+\#\(\)]', ' ', t)`: each other character becomes one space. */
  function BlankOthers(t: string): (r: string)
    ensures |r| == |t|
  {
    seq(|t|, i requires 0 <= i < |t| => Blank(t[i]))
  }

  predicate AllPlain(s: string) {
    forall c | c in s :: IsPlainChar(c)
  }

  /**
   * `_remove_special_chars` as written: the characters of the garbled class
   * are deleted, then every other disallowed character becomes a space.
   */
  function RemoveSpecialChars(t: string): string {
    BlankOthers(DeleteChars(t, MojibakeChars))
  }

  /** `_remove_special_chars` with the bullet glyphs its first class was meant to delete. */
  function RemoveSpecialCharsIntended(t: string): string {
    BlankOthers(DeleteChars(t, BulletGlyphs))
  }

  /** No character of the garbled class. */
  predicate NoMojibake(s: string) {
    forall ch | ch in s :: ch !in MojibakeChars
  }

  /** The word characters of `s`, in order. */
  function WordChars(s: string): string {
    if s == [] then [] else (if IsWordChar(s[0]) then [s[0]] else []) + WordChars(s[1..])
  }

  /**
   * Deleting a class and then keeping the word characters is keeping the word
   * characters and then deleting the class: as written, the word characters of
   * the garbled class (ñ, ó, è, ã, Ä, Ý) are lost and every other one survives.
   */
  lemma {:induction false} DeleteCharsWordChars(t: string, cls: seq<char>)
    ensures WordChars(DeleteChars(t, cls)) == DeleteChars(WordChars(t), cls)
  {
    if t != [] {
      DeleteCharsWordChars(t[1..], cls);
      var d := DeleteChars(t, cls);
      if t[0] in cls {
        assert d == DeleteChars(t[1..], cls);
      } else {
        assert d == [t[0]] + DeleteChars(t[1..], cls);
        assert d[1..] == DeleteChars(t[1..], cls);
      }
      if IsWordChar(t[0]) {
        assert WordChars(t) == [t[0]] + WordChars(t[1..]);
        assert WordChars(t)[1..] == WordChars(t[1..]);
      } else {
        assert WordChars(t) == WordChars(t[1..]);
      }
    }
  }

  /** Deleting the bullet glyphs, none of which is a word character, keeps every word character. */
  lemma {:induction false} DeleteGlyphsKeepsWords(t: string)
    ensures WordChars(DeleteChars(t, BulletGlyphs)) == WordChars(t)
  {
    if t != [] {
      DeleteGlyphsKeepsWords(t[1..]);
      var d := DeleteChars(t, BulletGlyphs);
      if t[0] in BulletGlyphs {
        GlyphsNotPlain(t[0]);
        assert d == DeleteChars(t[1..], BulletGlyphs);
      } else {
        assert d == [t[0]] + DeleteChars(t[1..], BulletGlyphs);
        assert d[1..] == DeleteChars(t[1..], BulletGlyphs);
      }
    }
  }

  lemma {:induction false} BlankOthersKeepsWords(t: string)
    ensures WordChars(BlankOthers(t)) == WordChars(t)
  {
    if t != [] {
      var r := BlankOthers(t);
      BlankOthersKeepsWords(t[1..]);
      assert r[1..] == BlankOthers(t[1..]);
      assert IsWordChar(r[0]) <==> IsWordChar(t[0]);
    }
  }

  lemma BlankOthersPlain(t: string)
    ensures AllPlain(BlankOthers(t))
  {
    var r := BlankOthers(t);
    forall c | c in r ensures IsPlainChar(c) {
      var i :| 0 <= i < |r| && r[i] == c;
    }
  }

  lemma BlankOthersOfPlain(t: string)
    requires AllPlain(t)
    ensures BlankOthers(t) == t
  {
    forall i | 0 <= i < |t| ensures BlankOthers(t)[i] == t[i] {
      assert t[i] in t;
    }
  }

  lemma {:induction false} DeleteCharsNone(t: string, cls: seq<char>)
    requires forall c | c in t :: c !in cls
    ensures DeleteChars(t, cls) == t
  {
    if t != [] {
      assert t[0] in t;
      assert forall c | c in t[1..] :: c in t;
      DeleteCharsNone(t[1..], cls);
    }
  }

  /** No bullet glyph is a plain character. */
  lemma GlyphsNotPlain(g: char)
    requires g in BulletGlyphs
    ensures !IsPlainChar(g)
  {
  }

  /**
   * After `_remove_special_chars` as written only word characters, whitespace
   * and `. , - + # ( )` remain, so neither a character of the garbled class nor
   * a bullet glyph is left; the word characters of the input survive in order
   * except those of the garbled class; and text made only of allowed characters
   * outside that class passes unchanged.
   */
  lemma RemoveSpecialCharsSpec(t: string)
    ensures var r := RemoveSpecialChars(t);
      && AllPlain(r)
      && (forall g | g in MojibakeChars :: g !in r)
      && (forall g | g in BulletGlyphs :: g !in r)
      && WordChars(r) == DeleteChars(WordChars(t), MojibakeChars)
      && (AllPlain(t) && NoMojibake(t) ==> r == t)
  {
    var d := DeleteChars(t, MojibakeChars);
    var r := BlankOthers(d);
    DeleteCharsWordChars(t, MojibakeChars);
    BlankOthersKeepsWords(d);
    BlankOthersPlain(d);
    forall g | g in BulletGlyphs ensures g !in r {
      GlyphsNotPlain(g);
    }
    forall g | g in MojibakeChars ensures g !in r {
      DeleteCharsRemoves(t, MojibakeChars, g);
      DeletedNotBlanked(d, g);
    }
    if AllPlain(t) && NoMojibake(t) {
      DeleteCharsNone(t, MojibakeChars);
      BlankOthersOfPlain(t);
    }
  }

  /** Blanking never creates a character of the garbled class that deletion removed. */
  lemma DeletedNotBlanked(d: string, g: char)
    requires g in MojibakeChars && g !in d
    ensures g !in BlankOthers(d)
  {
    forall i | 0 <= i < |d| ensures BlankOthers(d)[i] != g {
      assert d[i] in d;
    }
  }

  /** No character of a deleted class is left. */
  lemma {:induction false} DeleteCharsRemoves(t: string, cls: seq<char>, g: char)
    requires g in cls
    ensures g !in DeleteChars(t, cls)
  {
    if t != [] {
      DeleteCharsRemoves(t[1..], cls, g);
    }
  }

  /**
   * The corrected step: only allowed characters remain, no bullet glyph is
   * left, every word character of the input survives in order, and text made
   * only of allowed characters passes unchanged.
   */
  lemma RemoveSpecialCharsIntendedSpec(t: string)
    ensures var r := RemoveSpecialCharsIntended(t);
      && AllPlain(r)
      && (forall g | g in BulletGlyphs :: g !in r)
      && WordChars(r) == WordChars(t)
      && (AllPlain(t) ==> r == t)
  {
    var d := DeleteChars(t, BulletGlyphs);
    var r := BlankOthers(d);
    DeleteGlyphsKeepsWords(t);
    BlankOthersKeepsWords(d);
    BlankOthersPlain(d);
    forall g | g in BulletGlyphs ensures g !in r {
      GlyphsNotPlain(g);
    }
    if AllPlain(t) {
      forall c | c in t ensures c !in BulletGlyphs {
        if c in BulletGlyphs {
          GlyphsNotPlain(c);
        }
      }
      DeleteCharsNone(t, BulletGlyphs);
      BlankOthersOfPlain(t);
    }
  }

  lemma DeleteMojibakeFromName()
    ensures DeleteChars("Pe\U{F1}a", MojibakeChars) == "Pea"
  {
    assert 'a' !in MojibakeChars && 'e' !in MojibakeChars && 'P' !in MojibakeChars;
    assert MojibakeChars[6] == '\U{F1}';
    assert DeleteChars("a", MojibakeChars) == "a";
    assert DeleteChars("\U{F1}a", MojibakeChars) == "a";
    assert DeleteChars("e\U{F1}a", MojibakeChars) == "ea";
  }

  lemma NameWordChars()
    ensures WordChars("Pea") == "Pea"
    ensures WordChars("Pe\U{F1}a") == "Pe\U{F1}a"
  {
    assert WordChars("a") == "a";
    assert WordChars("ea") == "ea";
    assert WordChars("\U{F1}a") == "\U{F1}a";
    assert WordChars("e\U{F1}a") == "e\U{F1}a";
  }

  /**
   * As written, the first substitution deletes letters: "Peña" loses its ñ,
   * although ñ is a word character. The corrected step keeps the name.
   */
  lemma SpecialCharsDropLetters()
    ensures IsWordChar('\U{F1}')
    ensures RemoveSpecialChars("Pe\U{F1}a") == "Pea"
    ensures RemoveSpecialCharsIntended("Pe\U{F1}a") == "Pe\U{F1}a"
    ensures WordChars(RemoveSpecialChars("Pe\U{F1}a")) != WordChars("Pe\U{F1}a")
  {
    DeleteMojibakeFromName();
    assert AllPlain("Pea");
    BlankOthersOfPlain("Pea");
    assert AllPlain("Pe\U{F1}a");
    RemoveSpecialCharsIntendedSpec("Pe\U{F1}a");
    NameWordChars();
  }

  /** The special-character test: no bullet glyph survives the step, as written or corrected. */
  lemma SpecialCharsExample()
    ensures '\U{2022}' !in RemoveSpecialChars("Skills: \U{2022} Python \U{2022} Java \U{2022} C++")
    ensures '\U{2022}' !in RemoveSpecialCharsIntended("Skills: \U{2022} Python \U{2022} Java \U{2022} C++")
  {
    RemoveSpecialCharsSpec("Skills: \U{2022} Python \U{2022} Java \U{2022} C++");
    RemoveSpecialCharsIntendedSpec("Skills: \U{2022} Python \U{2022} Java \U{2022} C++");
  }

  /**
   * As written a bullet between two words is not in the garbled class, so
   * the second substitution turns it into a blank; the corrected step deletes it.
   */
  lemma BulletBlankedAsWritten()
    ensures RemoveSpecialChars("a\U{2022}b") == "a b"
    ensures RemoveSpecialCharsIntended("a\U{2022}b") == "ab"
  {
    BulletKeptByGarbledClass();
    BulletBlanked();
    BulletDeletedByGlyphs();
  }

  lemma BulletKeptByGarbledClass()
    ensures DeleteChars("a\U{2022}b", MojibakeChars) == "a\U{2022}b"
  {
    var t := "a\U{2022}b";
    forall c | c in t ensures c !in MojibakeChars {
      assert c == 'a' || c == '\U{2022}' || c == 'b';
    }
    DeleteCharsNone(t, MojibakeChars);
  }

  lemma BulletBlanked()
    ensures BlankOthers("a\U{2022}b") == "a b"
  {
    var t, r := "a\U{2022}b", BlankOthers("a\U{2022}b");
    assert !IsPlainChar('\U{2022}');
    assert r[0] == 'a' && r[1] == ' ' && r[2] == 'b';
  }

  lemma BulletDeletedByGlyphs()
    ensures BlankOthers(DeleteChars("a\U{2022}b", BulletGlyphs)) == "ab"
  {
    assert '\U{2022}' == BulletGlyphs[0];
    assert DeleteChars("b", BulletGlyphs) == "b";
    assert DeleteChars("\U{2022}b", BulletGlyphs) == "b";
    assert DeleteChars("a\U{2022}b", BulletGlyphs) == "ab";
    assert AllPlain("ab");
    BlankOthersOfPlain("ab");
  }

  // -------------------------------------------------------------- bullets

  /** The marker class of `_normalize_bullets` as written: a hyphen and the garbled characters. */
  const BulletMarks: seq<char> := ['-'] + MojibakeChars

  /** The marker class that was meant: a hyphen and the bullet glyphs. */
  const BulletMarksIntended: seq<char> := ['-'] + BulletGlyphs

  /** End of the whitespace run starting at `i`; `[\s]*` and `\s*` are greedy. */
  function SpaceRunEnd(t: string, i: nat): (e: nat)
    requires i <= |t|
    ensures i <= e <= |t|
    ensures forall k :: i <= k < e ==> IsSpace(t[k])
    ensures e == |t| || !IsSpace(t[e])
    decreases |t| - i
  {
    if i < |t| && IsSpace(t[i]) then SpaceRunEnd(t, i + 1) else i
  }

  /**
   * End of a match of `[\s]*[marks]\s*` at `i`. No marker is whitespace, so
   * backing off the leading run never helps: the marker must follow the whole run.
   */
  function MarkerEnd(t: string, i: nat, marks: seq<char>): (r: Option<nat>)
    requires i <= |t|
    ensures r.Some? ==> i < r.value <= |t|
  {
    var j := SpaceRunEnd(t, i);
    if j < |t| && t[j] in marks then Some(SpaceRunEnd(t, j + 1)) else None
  }

  /** `^` under `re.MULTILINE`: the start of the text or just after a line feed. */
  predicate LineStart(t: string, i: nat)
    requires i <= |t|
  {
    i == 0 || t[i - 1] == '\n'
  }

  function StripMarkersFrom(t: string, i: nat, marks: seq<char>): string
    requires i <= |t|
    decreases |t| - i
  {
    if i == |t| then []
    else
      var m := if LineStart(t, i) then MarkerEnd(t, i, marks) else None;
      if m.Some? then StripMarkersFrom(t, m.value, marks) else [t[i]] + StripMarkersFrom(t, i + 1, marks)
  }

  /** `_normalize_bullets`: a marker and the whitespace around it are deleted at the start of every line. */
  function NormalizeBullets(t: string, marks: seq<char>): string {
    StripMarkersFrom(t, 0, marks)
  }

  lemma {:induction false} StripMarkersInsideLine(t: string, i: nat, marks: seq<char>)
    requires 0 < i <= |t| && '\n' !in t
    ensures StripMarkersFrom(t, i, marks) == t[i..]
    decreases |t| - i
  {
    if i < |t| {
      assert t[i - 1] != '\n';
      StripMarkersInsideLine(t, i + 1, marks);
      assert t[i..] == [t[i]] + t[i + 1..];
    }
  }

  /**
   * On one line, which is all the pipeline ever passes (the whitespace step
   * has removed every line feed), only a marker at the start of the text is
   * deleted, with the whitespace before and after it; a text whose first
   * non-blank character is no marker is left as it is.
   */
  lemma BulletsAtStartOnly(t: string, marks: seq<char>)
    requires '\n' !in t
    ensures var m := MarkerEnd(t, 0, marks);
      NormalizeBullets(t, marks) == if m.Some? then t[m.value..] else t
    ensures var r := NormalizeBullets(t, marks);
      MarkerEnd(t, 0, marks).Some? ==> r == [] || !IsSpace(r[0])
  {
    var m := MarkerEnd(t, 0, marks);
    if t != [] {
      assert LineStart(t, 0);
      if m.Some? {
        assert NormalizeBullets(t, marks) == StripMarkersFrom(t, m.value, marks);
        if m.value < |t| {
          StripMarkersInsideLine(t, m.value, marks);
        }
      } else {
        assert NormalizeBullets(t, marks) == [t[0]] + StripMarkersFrom(t, 1, marks);
        StripMarkersInsideLine(t, 1, marks);
        SplitFirst(t);
      }
    }
  }

  // ------------------------------------------------------------ stopwords

  predicate IsStopword(w: string) {
    LowerStr(w) in Stopwords
  }

  /** `[w for w in ws if w.lower() not in self.stopwords]`. */
  function KeepNonStop(ws: seq<string>): (r: seq<string>)
    ensures |r| <= |ws|
  {
    if ws == [] then []
    else
      var init, last := ws[..|ws| - 1], ws[|ws| - 1];
      KeepNonStop(init) + (if IsStopword(last) then [] else [last])
  }

  lemma {:induction false} KeepNonStopMember(ws: seq<string>, w: string)
    ensures w in KeepNonStop(ws) <==> w in ws && !IsStopword(w)
  {
    if ws != [] {
      var init := ws[..|ws| - 1];
      assert ws == init + [ws[|ws| - 1]];
      KeepNonStopMember(init, w);
    }
  }

  lemma {:induction false} KeepNonStopOrder(ws: seq<string>)
    ensures IsSubsequence(KeepNonStop(ws), ws)
  {
    if ws != [] {
      var init, last := ws[..|ws| - 1], ws[|ws| - 1];
      assert ws == init + [last];
      KeepNonStopOrder(init);
      if IsStopword(last) {
        assert KeepNonStop(ws) == KeepNonStop(init);
        SubsequenceExtend(KeepNonStop(init), init, last);
      } else {
        SubsequenceSnoc(KeepNonStop(init), init, last);
      }
    }
  }

  lemma KeepNonStopWords(ws: seq<string>)
    requires AreWords(ws)
    ensures AreWords(KeepNonStop(ws))
  {
    var r := KeepNonStop(ws);
    forall k | 0 <= k < |r| ensures r[k] != [] && NoSpace(r[k]) {
      KeepNonStopMember(ws, r[k]);
    }
  }

  /** `_remove_stopwords_from_text`. */
  function RemoveStopwords(t: string): string {
    Join(KeepNonStop(Words(t)), " ")
  }

  /**
   * Splitting the result again gives, in order, exactly the words of the
   * input whose lowercase form is not a stopword.
   */
  lemma RemoveStopwordsSpec(t: string)
    ensures var ws := Words(RemoveStopwords(t));
      && ws == KeepNonStop(Words(t))
      && IsSubsequence(ws, Words(t))
      && forall w | w in ws :: !IsStopword(w)
  {
    WordsAreWords(t);
    KeepNonStopWords(Words(t));
    WordsOfJoin(KeepNonStop(Words(t)));
    KeepNonStopOrder(Words(t));
    forall w | w in KeepNonStop(Words(t)) ensures !IsStopword(w) {
      KeepNonStopMember(Words(t), w);
    }
  }

  // ---------------------------------------------------------------- clean

  /** Optional lowercasing, then optional stopword removal. */
  function Styled(c: Cleaner, t: string): string {
    var lowered := if c.lowercase then LowerStr(t) else t;
    if c.removeStopwords then RemoveStopwords(lowered) else lowered
  }

  /** The tail of `clean`: case and stopwords as configured, then strip. */
  function Finish(c: Cleaner, t: string): string {
    Strip(Styled(c, t))
  }

  /**
   * `clean`: URLs, then e-mail addresses (the step `removeEmails`), then
   * whitespace, special characters and bullet markers, then case and
   * stopwords as configured, then strip. The special-character and bullet
   * steps use the garbled character class as it is written.
   */
  function Clean(c: Cleaner, text: string, removeEmails: string -> string): (r: string)
    ensures text == [] ==> r == []
    ensures r == [] || (!IsSpace(r[0]) && !IsSpace(r[|r| - 1]))
  {
    if text == [] then []
    else
      var spaced := NormalizeWhitespace(removeEmails(RemoveUrls(text)));
      Finish(c, NormalizeBullets(RemoveSpecialChars(spaced), BulletMarks))
  }

  /** `clean` with the bullet glyphs the source meant its two classes to hold. */
  function CleanIntended(c: Cleaner, text: string, removeEmails: string -> string): (r: string)
    ensures text == [] ==> r == []
    ensures r == [] || (!IsSpace(r[0]) && !IsSpace(r[|r| - 1]))
  {
    if text == [] then []
    else
      var spaced := NormalizeWhitespace(removeEmails(RemoveUrls(text)));
      Finish(c, NormalizeBullets(RemoveSpecialCharsIntended(spaced), BulletMarksIntended))
  }

  /** The steps before the special characters leave a one-word name as it is. */
  lemma NameSurvivesWhitespace(removeEmails: string -> string)
    requires removeEmails("Pe\U{F1}a") == "Pe\U{F1}a"
    ensures NormalizeWhitespace(removeEmails(RemoveUrls("Pe\U{F1}a"))) == "Pe\U{F1}a"
  {
    var t := "Pe\U{F1}a";
    assert ':' !in t;
    RemoveUrlsNoScheme(t);
    assert NoSpace(t);
    PlainWordsUnchanged(t);
  }

  /** As written, `clean` turns the name "Peña" into "pea". */
  lemma CleanDropsLetters(removeEmails: string -> string)
    requires removeEmails("Pe\U{F1}a") == "Pe\U{F1}a"
    ensures Clean(DefaultCleaner, "Pe\U{F1}a", removeEmails) == "pea"
  {
    NameSurvivesWhitespace(removeEmails);
    assert RemoveSpecialChars("Pe\U{F1}a") == "Pea" by {
      SpecialCharsDropLetters();
    }
    assert NormalizeBullets("Pea", BulletMarks) == "Pea" by {
      assert 'P' !in BulletMarks;
      BulletsAtStartOnly("Pea", BulletMarks);
    }
    FinishShortName();
  }

  lemma FinishShortName()
    ensures Finish(DefaultCleaner, "Pea") == "pea"
  {
    var t, r := "Pea", "pea";
    assert Lower(t[0]) == r[0] && Lower(t[1]) == r[1] && Lower(t[2]) == r[2];
    assert LowerStr(t) == r;
    StripOfTrimmed(r);
  }

  lemma FinishName()
    ensures Finish(DefaultCleaner, "Pe\U{F1}a") == "pe\U{F1}a"
  {
    var t, r := "Pe\U{F1}a", "pe\U{F1}a";
    assert Lower(t[0]) == r[0] && Lower(t[1]) == r[1] && Lower(t[2]) == r[2] && Lower(t[3]) == r[3];
    assert LowerStr(t) == r;
    StripOfTrimmed(r);
  }

  /** The corrected `clean` keeps the name "Peña", lowercased. */
  lemma CleanKeepsLetters(removeEmails: string -> string)
    requires removeEmails("Pe\U{F1}a") == "Pe\U{F1}a"
    ensures CleanIntended(DefaultCleaner, "Pe\U{F1}a", removeEmails) == "pe\U{F1}a"
  {
    var t := "Pe\U{F1}a";
    NameSurvivesWhitespace(removeEmails);
    assert RemoveSpecialCharsIntended(t) == t by {
      SpecialCharsDropLetters();
    }
    assert NormalizeBullets(t, BulletMarksIntended) == t by {
      assert 'P' !in BulletMarksIntended;
      BulletsAtStartOnly(t, BulletMarksIntended);
    }
    FinishName();
  }

  // ----------------------------------------------------- pipeline properties

  lemma StripChars(s: string, ch: char)
    requires ch in Strip(s)
    ensures ch in s
  {
    var t := TrimStart(s);
    var i :| 0 <= i < |Strip(s)| && Strip(s)[i] == ch;
    assert Strip(s)[i] == t[i];
    assert t[i] == s[|s| - |t| + i];
  }

  lemma {:induction false} WordsChars(s: string, w: string, ch: char)
    requires w in Words(s) && ch in w
    ensures ch in s
    decreases |s|
  {
    var t := TrimStart(s);
    assert t != [];
    var n := TokenEnd(t, 0);
    assert 0 < n;
    var rest := t[n..];
    assert Words(s) == [t[..n]] + Words(rest);
    assert t == s[|s| - |t|..];
    if w == t[..n] {
      assert ch in t;
    } else {
      assert w in Words(rest);
      WordsChars(rest, w, ch);
      assert ch in t;
    }
  }

  lemma {:induction false} JoinChars(ws: seq<string>, ch: char)
    requires ch in Join(ws, " ")
    ensures ch == ' ' || exists w :: w in ws && ch in w
  {
    if |ws| == 1 {
      assert ws[0] in ws;
    } else if |ws| > 1 {
      var j := Join(ws, " ");
      assert j == ws[0] + " " + Join(ws[1..], " ");
      if ch in ws[0] {
        assert ws[0] in ws;
      } else if ch != ' ' {
        assert ch in Join(ws[1..], " ");
        JoinChars(ws[1..], ch);
        var w :| w in ws[1..] && ch in w;
        assert w in ws;
      }
    }
  }

  /** Every character left by stopword removal is a blank or a character of the input. */
  lemma RemoveStopwordsChars(t: string, ch: char)
    requires ch in RemoveStopwords(t)
    ensures ch == ' ' || ch in t
  {
    JoinChars(KeepNonStop(Words(t)), ch);
    if ch != ' ' {
      var w :| w in KeepNonStop(Words(t)) && ch in w;
      KeepNonStopMember(Words(t), w);
      WordsChars(t, w, ch);
    }
  }

  predicate NoUpper(s: string) {
    forall ch | ch in s :: !IsUpper(ch)
  }

  lemma LowerStrNoUpper(s: string)
    ensures NoUpper(LowerStr(s))
  {
    forall ch | ch in LowerStr(s) ensures !IsUpper(ch) {
      var i :| 0 <= i < |s| && LowerStr(s)[i] == ch;
      LowerSpec(s[i]);
    }
  }

  /** With `lowercase` set, no upper-case letter is left, whether or not stopwords are removed. */
  lemma CleanLowercases(c: Cleaner, text: string, removeEmails: string -> string)
    requires c.lowercase
    ensures NoUpper(Clean(c, text, removeEmails))
  {
    var r := Clean(c, text, removeEmails);
    if text != [] {
      var spaced := NormalizeWhitespace(removeEmails(RemoveUrls(text)));
      var t := NormalizeBullets(RemoveSpecialChars(spaced), BulletMarks);
      var lowered := LowerStr(t);
      var filtered := if c.removeStopwords then RemoveStopwords(lowered) else lowered;
      assert r == Strip(filtered);
      LowerStrNoUpper(t);
      forall ch | ch in r ensures !IsUpper(ch) {
        StripChars(filtered, ch);
        if c.removeStopwords {
          RemoveStopwordsChars(lowered, ch);
        }
      }
    }
  }

  lemma {:induction false} NonSpaceCharsMember(s: string, ch: char)
    ensures ch in NonSpaceChars(s) <==> ch in s && !IsSpace(ch)
  {
    if s != [] {
      NonSpaceCharsMember(s[1..], ch);
      assert s == [s[0]] + s[1..];
    }
  }

  lemma LowerNoDoubleSpace(s: string)
    requires NoDoubleSpace(s)
    ensures NoDoubleSpace(LowerStr(s))
  {
    var r := LowerStr(s);
    forall i | 0 <= i < |r| - 1 ensures !IsSpace(r[i]) || !IsSpace(r[i + 1]) {
      LowerSpec(s[i]);
      LowerSpec(s[i + 1]);
    }
  }

  lemma SliceNoDoubleSpace(s: string, a: nat, b: nat)
    requires NoDoubleSpace(s) && a <= b <= |s|
    ensures NoDoubleSpace(s[a..b])
  {
    var r := s[a..b];
    forall i | 0 <= i < |r| - 1 ensures !IsSpace(r[i]) || !IsSpace(r[i + 1]) {
      assert r[i] == s[a + i] && r[i + 1] == s[a + i + 1];
    }
  }

  lemma {:induction false} StripNoDoubleSpace(s: string)
    requires NoDoubleSpace(s)
    ensures NoDoubleSpace(Strip(s))
  {
    var a := StripSlice(s);
    SliceNoDoubleSpace(s, a, a + |Strip(s)|);
  }

  lemma NoDoubleSpaceConcat(x: string, y: string)
    requires NoDoubleSpace(x) && NoDoubleSpace(y)
    requires x == [] || y == [] || !IsSpace(x[|x| - 1]) || !IsSpace(y[0])
    ensures NoDoubleSpace(x + y)
  {
    var z := x + y;
    forall i | 0 <= i < |z| - 1 ensures !IsSpace(z[i]) || !IsSpace(z[i + 1]) {
      if i + 1 < |x| {
        assert z[i] == x[i] && z[i + 1] == x[i + 1];
      } else if i >= |x| {
        assert z[i] == y[i - |x|] && z[i + 1] == y[i - |x| + 1];
      }
    }
  }

  /** Words joined by single blanks never hold two whitespace characters in a row. */
  lemma {:induction false} JoinNoDoubleSpace(ws: seq<string>)
    requires AreWords(ws)
    ensures NoDoubleSpace(Join(ws, " "))
  {
    if |ws| == 1 {
      assert NoSpace(ws[0]);
    } else if |ws| > 1 {
      var tail := ws[1..];
      assert AreWords(tail) by {
        assert forall k :: 0 <= k < |tail| ==> tail[k] == ws[k + 1];
      }
      JoinNoDoubleSpace(tail);
      JoinStartsWithWord(tail);
      assert NoSpace(ws[0]) && ws[0] != [];
      NoDoubleSpaceConcat(ws[0], " ");
      NoDoubleSpaceConcat(ws[0] + " ", Join(tail, " "));
      JoinCons(ws, " ");
    }
  }

  /** Text made of word characters and whitespace. */
  predicate WordsAndSpaces(s: string) {
    forall ch | ch in s :: IsWordChar(ch) || IsSpace(ch)
  }

  /** A word character outside the garbled class is no marker. */
  lemma WordCharNoMarker(ch: char)
    requires IsWordChar(ch) && ch !in MojibakeChars
    ensures ch !in BulletMarks
  {
  }

  /**
   * After the whitespace step, text of words and whitespace is words and
   * single blanks, which the special-character and bullet steps leave alone
   * as long as no character of the garbled class occurs (those are deleted).
   */
  lemma PlainStepsUnchanged(spaced: string, text: string)
    requires WordsAndSpaces(text) && NoMojibake(text)
    requires spaced == NormalizeWhitespace(text)
    ensures NormalizeBullets(RemoveSpecialChars(spaced), BulletMarks) == spaced
    ensures NoDoubleSpace(spaced)
  {
    NormalizeWhitespaceSpec(text);
    assert AllPlain(spaced) && NoMojibake(spaced) && forall ch | ch in spaced && !IsSpace(ch) :: IsWordChar(ch) by {
      forall ch | ch in spaced ensures IsPlainChar(ch) && ch !in MojibakeChars && (!IsSpace(ch) ==> IsWordChar(ch)) {
        if !IsSpace(ch) {
          NonSpaceCharsMember(spaced, ch);
          NonSpaceCharsMember(text, ch);
        }
      }
    }
    RemoveSpecialCharsSpec(spaced);
    BulletsAtStartOnly(spaced, BulletMarks);
    var j := SpaceRunEnd(spaced, 0);
    if j < |spaced| {
      assert spaced[j] in spaced;
      WordCharNoMarker(spaced[j]);
    }
  }

  /**
   * Text of words and whitespace with no character of the garbled class comes
   * out of `clean` with no two whitespace characters in a row, whatever the
   * switches (the special-character step can leave runs of blanks in other
   * text: "a ñ b" becomes "a  b").
   */
  lemma CleanPlainText(c: Cleaner, text: string, removeEmails: string -> string)
    requires ':' !in text && removeEmails(text) == text
    requires WordsAndSpaces(text) && NoMojibake(text)
    ensures NoDoubleSpace(Clean(c, text, removeEmails))
  {
    if text != [] {
      RemoveUrlsNoScheme(text);
      var spaced := NormalizeWhitespace(text);
      PlainStepsUnchanged(spaced, text);
      var lowered := if c.lowercase then LowerStr(spaced) else spaced;
      if c.lowercase {
        LowerNoDoubleSpace(spaced);
      }
      var filtered := if c.removeStopwords then RemoveStopwords(lowered) else lowered;
      if c.removeStopwords {
        WordsAreWords(lowered);
        KeepNonStopWords(Words(lowered));
        JoinNoDoubleSpace(KeepNonStop(Words(lowered)));
      }
      StripNoDoubleSpace(filtered);
      assert Clean(c, text, removeEmails) == Strip(filtered);
    }
  }

  /** The whitespace test: "Python     Developer   with    experience" comes out single-spaced. */
  lemma CleanWhitespaceExample(removeEmails: string -> string)
    requires var t := "Python" + "     " + "Developer" + "   " + "with" + "    " + "experience";
      removeEmails(t) == t
    ensures var t := "Python" + "     " + "Developer" + "   " + "with" + "    " + "experience";
      NoDoubleSpace(Clean(DefaultCleaner, t, removeEmails))
  {
    var t := "Python" + "     " + "Developer" + "   " + "with" + "    " + "experience";
    WhitespaceExamplePlain();
    CleanPlainText(DefaultCleaner, t, removeEmails);
  }

  /**
   * Words separated by single blanks, with no whitespace at either end and no
   * character of the garbled class, come out of `clean` (stopwords kept)
   * exactly as given, lowered when asked.
   */
  lemma CleanSingleSpaced(c: Cleaner, text: string, removeEmails: string -> string)
    requires ':' !in text && removeEmails(text) == text
    requires WordsAndSpaces(text) && NoMojibake(text) && SpacesAreBlanks(text) && NoDoubleSpace(text)
    requires text == [] || (!IsSpace(text[0]) && !IsSpace(text[|text| - 1]))
    requires !c.removeStopwords
    ensures Clean(c, text, removeEmails) == if c.lowercase then LowerStr(text) else text
  {
    if text != [] {
      RemoveUrlsNoScheme(text);
      PlainWordsUnchanged(text);
      assert NormalizeWhitespace(removeEmails(RemoveUrls(text))) == text;
      PlainStepsUnchanged(text, text);
      FinishTrimmed(c, text);
    }
  }

  lemma WhitespaceExamplePlain()
    ensures var t := "Python" + "     " + "Developer" + "   " + "with" + "    " + "experience";
      && ':' !in t && WordsAndSpaces(t) && NoMojibake(t)
  {
    var t := "Python" + "     " + "Developer" + "   " + "with" + "    " + "experience";
    assert ':' !in t && WordsAndSpaces(t);
    WhitespaceExampleAscii();
  }

  lemma WhitespaceExampleAscii()
    ensures NoMojibake("Python" + "     " + "Developer" + "   " + "with" + "    " + "experience")
  {
    AsciiNoMojibake("Python");
    AsciiNoMojibake("     ");
    AsciiNoMojibake("Developer");
    AsciiNoMojibake("   ");
    AsciiNoMojibake("with");
    AsciiNoMojibake("    ");
    AsciiNoMojibake("experience");
  }

  /** Without stopword removal, finishing a text with no surrounding whitespace only sets its case. */
  lemma FinishTrimmed(c: Cleaner, t: string)
    requires t != [] && !IsSpace(t[0]) && !IsSpace(t[|t| - 1])
    requires !c.removeStopwords
    ensures Finish(c, t) == if c.lowercase then LowerStr(t) else t
  {
    var lowered := if c.lowercase then LowerStr(t) else t;
    LowerSpec(t[0]);
    LowerSpec(t[|t| - 1]);
    StripOfTrimmed(lowered);
  }

  lemma LowerExampleWords()
    ensures LowerStr("Python") == "python"
    ensures LowerStr("JAVASCRIPT") == "javascript"
    ensures LowerStr("React") == "react"
  {
    var a, b, r := "JAVASCRIPT", "javascript", LowerStr("JAVASCRIPT");
    assert r[0] == b[0] && r[1] == b[1] && r[2] == b[2] && r[3] == b[3] && r[4] == b[4];
    assert r[5] == b[5] && r[6] == b[6] && r[7] == b[7] && r[8] == b[8] && r[9] == b[9];
    var p, q := LowerStr("Python"), "python";
    assert p[0] == q[0] && p[1] == q[1] && p[2] == q[2] && p[3] == q[3] && p[4] == q[4] && p[5] == q[5];
    var x, y := LowerStr("React"), "react";
    assert x[0] == y[0] && x[1] == y[1] && x[2] == y[2] && x[3] == y[3] && x[4] == y[4];
  }

  lemma LowerExampleText()
    ensures LowerStr("Python" + " " + "JAVASCRIPT" + " " + "React")
      == "python" + " " + "javascript" + " " + "react"
  {
    LowerExampleWords();
    LowerStrAppend("Python" + " " + "JAVASCRIPT" + " ", "React");
    LowerStrAppend("Python" + " " + "JAVASCRIPT", " ");
    LowerStrAppend("Python" + " ", "JAVASCRIPT");
    LowerStrAppend("Python", " ");
    assert LowerStr(" ") == " ";
  }

  lemma LowerExamplePlain()
    ensures var t := "Python" + " " + "JAVASCRIPT" + " " + "React";
      && ':' !in t && WordsAndSpaces(t) && NoMojibake(t)
  {
    var t := "Python" + " " + "JAVASCRIPT" + " " + "React";
    assert ':' !in t && WordsAndSpaces(t);
    AsciiNoMojibake(t);
  }

  /** ASCII text holds no character of the garbled class. */
  lemma AsciiNoMojibake(t: string)
    requires forall i | 0 <= i < |t| :: t[i] < '\U{80}'
    ensures NoMojibake(t)
  {
    forall ch | ch in t ensures ch !in MojibakeChars {
      var i :| 0 <= i < |t| && t[i] == ch;
    }
  }

  lemma LowerExampleSpacing()
    ensures var t := "Python" + " " + "JAVASCRIPT" + " " + "React";
      && SpacesAreBlanks(t) && NoDoubleSpace(t) && !IsSpace(t[0]) && !IsSpace(t[|t| - 1])
  {
    var t := "Python" + " " + "JAVASCRIPT" + " " + "React";
    assert forall i :: 0 <= i < |t| && IsSpace(t[i]) ==> i == 6 || i == 17;
  }

  /** The lowercase test: "Python JAVASCRIPT React" becomes "python javascript react". */
  lemma CleanLowercaseExample(removeEmails: string -> string)
    requires var t := "Python" + " " + "JAVASCRIPT" + " " + "React";
      removeEmails(t) == t
    ensures var t := "Python" + " " + "JAVASCRIPT" + " " + "React";
      Clean(DefaultCleaner, t, removeEmails) == "python" + " " + "javascript" + " " + "react"
  {
    var t := "Python" + " " + "JAVASCRIPT" + " " + "React";
    LowerExamplePlain();
    LowerExampleSpacing();
    CleanSingleSpaced(DefaultCleaner, t, removeEmails);
    LowerExampleText();
  }

  // ------------------------------------------------------------ sections

  /** The five sections of a resume, in the order of the source's dictionaries. */
  datatype Section = Education | Experience | Skills | Certifications | Projects

  const SectionOrder: seq<Section> := [Education, Experience, Skills, Certifications, Projects]

  /** The dictionary key of each section. */
  function SectionName(sec: Section): (r: string)
    ensures r != []
  {
    match sec
    case Education => "education"
    case Experience => "experience"
    case Skills => "skills"
    case Certifications => "certifications"
    case Projects => "projects"
  }

  /** The alternatives of each section's case-insensitive header pattern, lowercased. */
  function HeaderWords(sec: Section): (r: seq<string>)
    ensures |r| >= 2 && forall k :: 0 <= k < |r| ==> r[k] != []
  {
    match sec
    case Education => ["education", "academic", "qualification"]
    case Experience => ["experience", "employment", "work history"]
    case Skills => ["skills", "technical skills", "competencies"]
    case Certifications => ["certification", "certificate", "license"]
    case Projects => ["projects", "portfolio"]
  }

  /** `re.search(pattern, line)` for a section's `(?i)(a|b|c)` pattern. */
  predicate HeaderMatches(line: string, sec: Section) {
    ContainsAny(LowerStr(line), HeaderWords(sec))
  }

  /** The header test for one line, as a predicate on sections. */
  function HeaderTest(line: string): Section -> bool {
    sec => HeaderMatches(line, sec)
  }

  /** The section a line announces, if any: the first pattern in dictionary order wins. */
  function HeaderOf(line: string): Option<Section> {
    FirstWhere(SectionOrder, HeaderTest(line))
  }

  /**
   * A line announces a section exactly when it matches that section's pattern
   * and none of the patterns before it; it announces none when no pattern matches.
   */
  lemma HeaderOfSpec(line: string, k: nat)
    requires k < |SectionOrder|
    ensures HeaderOf(line) == Some(SectionOrder[k]) <==>
      HeaderMatches(line, SectionOrder[k]) && forall m :: 0 <= m < k ==> !HeaderMatches(line, SectionOrder[m])
    ensures HeaderOf(line).None? <==> forall m :: 0 <= m < |SectionOrder| ==> !HeaderMatches(line, SectionOrder[m])
  {
    var p := HeaderTest(line);
    assert NoDups(SectionOrder);
    assert forall m :: 0 <= m < |SectionOrder| ==> p(SectionOrder[m]) == HeaderMatches(line, SectionOrder[m]);
    if HeaderOf(line) == Some(SectionOrder[k]) {
      FirstWherePicked(SectionOrder, p, k);
    }
    if HeaderMatches(line, SectionOrder[k]) && forall m :: 0 <= m < k ==> !HeaderMatches(line, SectionOrder[m]) {
      FirstWherePicks(SectionOrder, p, k);
    }
    FirstWhereNone(SectionOrder, p);
  }

  /** A blank line announces no section. */
  lemma EmptyLineNoHeader()
    ensures HeaderOf([]).None?
  {
    FirstWhereNone(SectionOrder, HeaderTest([]));
    assert LowerStr([]) == [];
    forall m | 0 <= m < |SectionOrder| ensures !HeaderMatches([], SectionOrder[m]) {
      var ws := HeaderWords(SectionOrder[m]);
      forall k | 0 <= k < |ws| ensures !Contains([], ws[k]) {
        assert ws[k] != [];
      }
    }
  }

  /** Each line of the text, stripped. */
  function StrippedLines(lines: seq<string>): (r: seq<string>)
    ensures |r| == |lines|
  {
    seq(|lines|, j requires 0 <= j < |lines| => Strip(lines[j]))
  }

  /** The section each stripped line announces, if any. */
  function Headers(stripped: seq<string>): (r: seq<Option<Section>>)
    ensures |r| == |stripped|
  {
    seq(|stripped|, j requires 0 <= j < |stripped| => HeaderOf(stripped[j]))
  }

  /** The section current after reading lines with the given headers: the one announced most recently. */
  function Latest(hs: seq<Option<Section>>): Option<Section> {
    if hs == [] then None
    else if hs[|hs| - 1].Some? then hs[|hs| - 1]
    else Latest(hs[..|hs| - 1])
  }

  /**
   * The lines filed under `sec`: each non-blank stripped line goes to the
   * section current once it has been read (a header line to its own section).
   */
  function Filing(stripped: seq<string>, hs: seq<Option<Section>>, sec: Section): seq<string>
    requires |stripped| == |hs|
  {
    if stripped == [] then []
    else
      var before := Filing(stripped[..|stripped| - 1], hs[..|hs| - 1], sec);
      if stripped[|stripped| - 1] != [] && Latest(hs) == Some(sec) then before + [stripped[|stripped| - 1]]
      else before
  }

  /** The lines of `text` filed under `sec` by `extract_sections`. */
  function FiledUnder(text: string, sec: Section): seq<string> {
    var stripped := StrippedLines(SplitLines(text));
    Filing(stripped, Headers(stripped), sec)
  }

  /** The result holds a list for every section, and that list is what `Filing` gives. */
  predicate Filed(sections: map<Section, seq<string>>, stripped: seq<string>, hs: seq<Option<Section>>)
    requires |stripped| == |hs|
  {
    forall sec: Section :: sec in sections && sections[sec] == Filing(stripped, hs, sec)
  }

  /**
   * The current section is the one announced by the most recent header
   * line; there is none exactly when no line is a header.
   */
  lemma {:induction false} LatestIsMostRecent(hs: seq<Option<Section>>)
    ensures Latest(hs).None? <==> forall j :: 0 <= j < |hs| ==> hs[j].None?
    ensures Latest(hs).Some? ==> exists j :: 0 <= j < |hs| && hs[j] == Latest(hs) && forall k :: j < k < |hs| ==> hs[k].None?
  {
    if hs != [] {
      var init := hs[..|hs| - 1];
      LatestIsMostRecent(init);
      if hs[|hs| - 1].None? && Latest(init).Some? {
        var j :| 0 <= j < |init| && init[j] == Latest(init) && forall k :: j < k < |init| ==> init[k].None?;
        assert hs[j] == Latest(hs);
      }
    }
  }

  /** Lines read before any header line are filed nowhere. */
  lemma {:induction false} NoHeaderNothingFiled(stripped: seq<string>, hs: seq<Option<Section>>, sec: Section)
    requires |stripped| == |hs|
    requires forall j :: 0 <= j < |hs| ==> hs[j].None?
    ensures Filing(stripped, hs, sec) == []
  {
    LatestIsMostRecent(hs);
    if hs != [] {
      NoHeaderNothingFiled(stripped[..|stripped| - 1], hs[..|hs| - 1], sec);
    }
  }

  /** The number of lines filed over all five sections. */
  function FiledTotal(stripped: seq<string>, hs: seq<Option<Section>>): nat
    requires |stripped| == |hs|
  {
    |Filing(stripped, hs, Education)| + |Filing(stripped, hs, Experience)| + |Filing(stripped, hs, Skills)|
      + |Filing(stripped, hs, Certifications)| + |Filing(stripped, hs, Projects)|
  }

  /** The number of non-blank lines. */
  function NonBlankCount(stripped: seq<string>): nat {
    if stripped == [] then 0
    else NonBlankCount(stripped[..|stripped| - 1]) + if stripped[|stripped| - 1] != [] then 1 else 0
  }

  /**
   * When the first line is a header, every non-blank line is filed under
   * exactly one section: the lists hold as many lines as there are.
   */
  lemma {:induction false} EveryLineFiledOnce(stripped: seq<string>, hs: seq<Option<Section>>)
    requires |stripped| == |hs| && hs != [] && hs[0].Some?
    ensures FiledTotal(stripped, hs) == NonBlankCount(stripped)
  {
    LatestIsMostRecent(hs);
    assert Latest(hs).Some?;
    var st, init := stripped[..|stripped| - 1], hs[..|hs| - 1];
    if |hs| > 1 {
      assert init[0] == hs[0];
      EveryLineFiledOnce(st, init);
    }
    assert FiledTotal(st, init) == NonBlankCount(st);
    match Latest(hs).value
    case Education =>
    case Experience =>
    case Skills =>
    case Certifications =>
    case Projects =>
  }

  /** The header search in `extract_sections`: patterns in dictionary order, stopping at the first match. */
  method MatchHeader(line: string) returns (h: Option<Section>)
    ensures h == HeaderOf(line)
  {
    h := None;
    var k := 0;
    while k < |SectionOrder|
      invariant 0 <= k <= |SectionOrder|
      invariant HeaderOf(line) == FirstWhere(SectionOrder[k..], HeaderTest(line))
    {
      if HeaderMatches(line, SectionOrder[k]) {
        h := Some(SectionOrder[k]);
        return;
      }
      assert SectionOrder[k..][1..] == SectionOrder[k + 1..];
      k := k + 1;
    }
  }

  /** The loop of `extract_sections` reads line `i`. */
  lemma FilingStep(stripped: seq<string>, hs: seq<Option<Section>>, i: nat, sec: Section)
    requires |stripped| == |hs| && i < |hs|
    ensures Filing(stripped[..i + 1], hs[..i + 1], sec) ==
      if stripped[i] != [] && Latest(hs[..i + 1]) == Some(sec) then Filing(stripped[..i], hs[..i], sec) + [stripped[i]]
      else Filing(stripped[..i], hs[..i], sec)
    ensures Latest(hs[..i + 1]) == if hs[i].Some? then hs[i] else Latest(hs[..i])
  {
    assert stripped[..i + 1][..i] == stripped[..i];
    assert hs[..i + 1][..i] == hs[..i];
  }

  /** Appending a line under the current section changes that section's list only. */
  lemma FileLineEntry(sections: map<Section, seq<string>>, c: Option<Section>, line: string, sec: Section)
    requires sec in sections && (c.Some? ==> c.value in sections)
    ensures var next := if line != [] && c.Some? then sections[c.value := sections[c.value] + [line]] else sections;
      sec in next && next[sec] == if line != [] && c == Some(sec) then sections[sec] + [line] else sections[sec]
  {
  }

  /** After reading line `i`, every section's list is what `Filing` gives. */
  lemma FiledMapStep(sections: map<Section, seq<string>>, stripped: seq<string>, hs: seq<Option<Section>>, i: nat)
    requires |stripped| == |hs| && i < |hs| && Filed(sections, stripped[..i], hs[..i])
    ensures var c := Latest(hs[..i + 1]);
      Filed(if stripped[i] != [] && c.Some? then sections[c.value := sections[c.value] + [stripped[i]]] else sections,
        stripped[..i + 1], hs[..i + 1])
  {
    var c := Latest(hs[..i + 1]);
    var next := if stripped[i] != [] && c.Some? then sections[c.value := sections[c.value] + [stripped[i]]] else sections;
    forall sec: Section ensures sec in next && next[sec] == Filing(stripped[..i + 1], hs[..i + 1], sec) {
      assert sec in sections && (c.Some? ==> c.value in sections);
      FileLineEntry(sections, c, stripped[i], sec);
      FilingStep(stripped, hs, i, sec);
    }
  }

  /** The empty lists `extract_sections` starts from file what no lines file. */
  lemma FiledInitially(sections: map<Section, seq<string>>)
    requires sections == map[Education := [], Experience := [], Skills := [], Certifications := [], Projects := []]
    ensures Filed(sections, [], [])
  {
    forall sec: Section ensures sec in sections && sections[sec] == Filing([], [], sec) {
      match sec
      case Education =>
      case Experience =>
      case Skills =>
      case Certifications =>
      case Projects =>
    }
  }

  /** One pass of the loop of `extract_sections` over a stripped line. */
  method ReadLine(sections: map<Section, seq<string>>, current: Option<Section>, line: string)
    returns (next: map<Section, seq<string>>, now: Option<Section>)
    requires forall sec: Section :: sec in sections
    ensures now == if HeaderOf(line).Some? then HeaderOf(line) else current
    ensures next == if line != [] && now.Some? then sections[now.value := sections[now.value] + [line]] else sections
  {
    next, now := sections, current;
    if line != [] {
      var h := MatchHeader(line);
      if h.Some? {
        now := h;
      }
      if now.Some? {
        next := sections[now.value := sections[now.value] + [line]];
      }
    } else {
      EmptyLineNoHeader();
    }
  }

  /**
   * `extract_sections`: every non-blank line, stripped, is appended to the
   * list of the section announced by the most recent header line (the header
   * line included); lines before the first header are dropped.
   */
  method ExtractSections(text: string) returns (sections: map<Section, seq<string>>)
    ensures forall sec: Section :: sec in sections && sections[sec] == FiledUnder(text, sec)
  {
    sections := map[Education := [], Experience := [], Skills := [], Certifications := [], Projects := []];
    var lines := SplitLines(text);
    ghost var stripped := StrippedLines(lines);
    ghost var hs := Headers(stripped);
    var current: Option<Section> := None;
    FiledInitially(sections);
    assert stripped[..0] == [] && hs[..0] == [];
    for i := 0 to |lines|
      invariant current == Latest(hs[..i])
      invariant Filed(sections, stripped[..i], hs[..i])
    {
      sections, current := FileNext(sections, current, lines, i, stripped, hs);
    }
    assert stripped[..|lines|] == stripped && hs[..|lines|] == hs;
    FiledWhole(sections, text);
  }

  /** One pass of the loop of `extract_sections`: line `i` is stripped, matched and filed. */
  method FileNext(sections: map<Section, seq<string>>, current: Option<Section>, lines: seq<string>, i: nat,
                  ghost stripped: seq<string>, ghost hs: seq<Option<Section>>)
    returns (next: map<Section, seq<string>>, now: Option<Section>)
    requires i < |lines| && stripped == StrippedLines(lines) && hs == Headers(stripped)
    requires current == Latest(hs[..i]) && Filed(sections, stripped[..i], hs[..i])
    ensures now == Latest(hs[..i + 1]) && Filed(next, stripped[..i + 1], hs[..i + 1])
  {
    var line := Strip(lines[i]);
    LineAt(lines, i);
    LatestStep(hs, i);
    FiledMapStep(sections, stripped, hs, i);
    next, now := ReadLine(sections, current, line);
  }

  /** Line `i` of the loop, stripped, and the header it announces. */
  lemma LineAt(lines: seq<string>, i: nat)
    requires i < |lines|
    ensures StrippedLines(lines)[i] == Strip(lines[i])
    ensures Headers(StrippedLines(lines))[i] == HeaderOf(Strip(lines[i]))
  {
  }

  /** Reading one more line changes the current section only at a header line. */
  lemma LatestStep(hs: seq<Option<Section>>, i: nat)
    requires i < |hs|
    ensures Latest(hs[..i + 1]) == if hs[i].Some? then hs[i] else Latest(hs[..i])
  {
    assert hs[..i + 1][..i] == hs[..i];
  }

  /** Filing every line of the text gives, for each section, what `FiledUnder` gives. */
  lemma FiledWhole(sections: map<Section, seq<string>>, text: string)
    requires var s := StrippedLines(SplitLines(text)); Filed(sections, s, Headers(s))
    ensures forall sec: Section :: sec in sections && sections[sec] == FiledUnder(text, sec)
  {
  }
}
