/**
 Free-text search: escaping of the LIKE wildcards, a LIKE matcher with backslash as escape
 character, and the search predicate of the audit log.
 */
module LikeSearch {
  import opened Options

  // ---------------------------------------------------------------- LIKE

  /** A pattern may not end in a lone escape character. */
  predicate WellFormed(pattern: string) {
    if pattern == "" then true
    else if pattern[0] == '\\' then |pattern| > 1 && WellFormed(pattern[2..])
    else WellFormed(pattern[1..])
  }

  /** `text LIKE pattern ESCAPE '\'` */
  ghost predicate Like(text: string, pattern: string)
    decreases |pattern|
  {
    if pattern == "" then text == ""
    else if pattern[0] == '%' then
      exists k :: 0 <= k <= |text| && Like(text[k..], pattern[1..])
    else if pattern[0] == '_' then text != "" && Like(text[1..], pattern[1..])
    else if pattern[0] == '\\' then
      |pattern| > 1 && text != "" && text[0] == pattern[1] && Like(text[1..], pattern[2..])
    else text != "" && text[0] == pattern[0] && Like(text[1..], pattern[1..])
  }

  ghost predicate Contains(text: string, part: string) {
    exists i :: 0 <= i <= |text| && part <= text[i..]
  }

  // ---------------------------------------------------------------- escaping

  predicate Special(c: char) {
    c == '\\' || c == '%' || c == '_'
  }

  /** `s.replace(/c/g, replacement)` for a one-character pattern. */
  function ReplaceAll(s: string, c: char, replacement: string): string {
    if s == "" then ""
    else (if s[0] == c then replacement else [s[0]]) + ReplaceAll(s[1..], c, replacement)
  }

  /** Three replacements, the backslash first. */
  function EscapeLike(raw: string): string {
    ReplaceAll(ReplaceAll(ReplaceAll(raw, '\\', "\\\\"), '%', "\\%"), '_', "\\_")
  }

  /** The escaping meant: one pass, each special character behind a backslash. */
  function Escape(raw: string): string {
    if raw == "" then ""
    else (if Special(raw[0]) then ['\\', raw[0]] else [raw[0]]) + Escape(raw[1..])
  }

  lemma {:induction false} ReplaceAllAppend(s: string, t: string, c: char, replacement: string)
    ensures ReplaceAll(s + t, c, replacement)
         == ReplaceAll(s, c, replacement) + ReplaceAll(t, c, replacement)
  {
    if s == "" {
      assert s + t == t;
    } else {
      assert (s + t)[1..] == s[1..] + t;
      ReplaceAllAppend(s[1..], t, c, replacement);
    }
  }

  /** What the three replacements make of one character. */
  lemma EscapeLikeChar(c: char)
    ensures EscapeLike([c]) == if Special(c) then ['\\', c] else [c]
  {
    assert ReplaceAll([c], '\\', "\\\\") == if c == '\\' then "\\\\" else [c];
    assert ReplaceAll("\\\\", '%', "\\%") == "\\\\" by {
      assert "\\\\"[1..] == "\\";
    }
    assert ReplaceAll("\\\\", '_', "\\_") == "\\\\" by {
      assert "\\\\"[1..] == "\\";
    }
    assert ReplaceAll("\\%", '_', "\\_") == "\\%" by {
      assert "\\%"[1..] == "%";
    }
  }

  /** The three passes, in this order, do not touch one another's output. */
  lemma {:induction false} EscapeLikeIsEscape(raw: string)
    ensures EscapeLike(raw) == Escape(raw)
  {
    if raw != "" {
      var head, rest := [raw[0]], raw[1..];
      assert raw == head + rest;
      ReplaceAllAppend(head, rest, '\\', "\\\\");
      var h1, r1 := ReplaceAll(head, '\\', "\\\\"), ReplaceAll(rest, '\\', "\\\\");
      ReplaceAllAppend(h1, r1, '%', "\\%");
      ReplaceAllAppend(ReplaceAll(h1, '%', "\\%"), ReplaceAll(r1, '%', "\\%"), '_', "\\_");
      EscapeLikeChar(raw[0]);
      EscapeLikeIsEscape(rest);
    }
  }

  // ---------------------------------------------------------------- the search pattern

  lemma LikeStep(text: string, c: char, rest: string)
    ensures Special(c) ==>
              (Like(text, ['\\', c] + rest) <==> text != "" && text[0] == c && Like(text[1..], rest))
    ensures !Special(c) ==>
              (Like(text, [c] + rest) <==> text != "" && text[0] == c && Like(text[1..], rest))
  {
  }

  lemma EscapeStep(raw: string, tail: string)
    requires raw != ""
    ensures Escape(raw) + tail
         == (if Special(raw[0]) then ['\\', raw[0]] else [raw[0]]) + (Escape(raw[1..]) + tail)
  {
  }

  /** An escaped string, as a pattern, consumes exactly that string. */
  lemma {:induction false} LikeEscaped(text: string, raw: string, tail: string)
    ensures Like(text, Escape(raw) + tail) <==> raw <= text && Like(text[|raw|..], tail)
  {
    if raw == "" {
      assert Escape(raw) + tail == tail && text[0..] == text;
    } else {
      var c, rest := raw[0], raw[1..];
      var remainder := Escape(rest) + tail;
      EscapeStep(raw, tail);
      LikeStep(text, c, remainder);
      if text != "" && text[0] == c {
        LikeEscaped(text[1..], rest, tail);
        assert rest <= text[1..] <==> raw <= text by {
          assert raw == [c] + rest && text == [c] + text[1..];
        }
        if raw <= text {
          assert text[1..][|rest|..] == text[|raw|..];
        }
      }
    }
  }

  lemma WellFormedStep(c: char, rest: string)
    requires WellFormed(rest)
    ensures Special(c) ==> WellFormed(['\\', c] + rest)
    ensures !Special(c) ==> WellFormed([c] + rest)
  {
  }

  lemma {:induction false} EscapedWellFormed(raw: string, tail: string)
    requires WellFormed(tail)
    ensures WellFormed(Escape(raw) + tail)
  {
    if raw == "" {
      assert Escape(raw) + tail == tail;
    } else {
      var rest := Escape(raw[1..]) + tail;
      EscapedWellFormed(raw[1..], tail);
      EscapeStep(raw, tail);
      WellFormedStep(raw[0], rest);
    }
  }

  lemma LikePercent(text: string)
    ensures Like(text, "%")
  {
    assert Like(text[|text|..], "%"[1..]);
  }

  lemma PercentAroundEscaped(text: string, raw: string)
    ensures Like(text, "%" + Escape(raw) + "%") <==> Contains(text, raw)
  {
    var inner := Escape(raw) + "%";
    assert "%" + Escape(raw) + "%" == "%" + inner;
    assert ("%" + inner)[1..] == inner;
    forall k | 0 <= k <= |text|
      ensures Like(text[k..], inner) <==> raw <= text[k..]
    {
      LikeEscaped(text[k..], raw, "%");
      if raw <= text[k..] {
        LikePercent(text[k..][|raw|..]);
      }
    }
  }

  /** `%` + escaped + `%` is a valid pattern, and matches exactly the texts containing the string. */
  lemma SearchPatternIsContains(text: string, raw: string)
    ensures WellFormed("%" + EscapeLike(raw) + "%")
    ensures Like(text, "%" + EscapeLike(raw) + "%") <==> Contains(text, raw)
  {
    EscapeLikeIsEscape(raw);
    EscapedWellFormed(raw, "%");
    assert ("%" + EscapeLike(raw) + "%")[1..] == Escape(raw) + "%";
    PercentAroundEscaped(text, raw);
  }

  // ---------------------------------------------------------------- the audit search predicate

  datatype SearchRow = SearchRow(
    actorUsername: Option<string>, entityName: Option<string>, ipAddress: Option<string>)

  /**
   The condition `filteredBuilder` adds: none for a blank search, else one LIKE over three
   columns.  `lowerSql` and `lowerJs` are LOWER and toLowerCase, `trim` is String.trim.
   */
  ghost predicate SearchCondition(row: SearchRow, search: Option<string>, trim: string -> string,
                                  lowerJs: string -> string, lowerSql: string -> string)
  {
    var wanted := if search.Some? then trim(search.value) else "";
    if wanted == "" then true
    else
      var pattern := "%" + EscapeLike(lowerJs(wanted)) + "%";
      || Like(lowerSql(GetOr(row.actorUsername, "")), pattern)
      || Like(lowerSql(GetOr(row.entityName, "")), pattern)
      || Like(lowerSql(GetOr(row.ipAddress, "")), pattern)
  }

  /** A row is found exactly when the search is blank or one of its three columns contains it. */
  lemma SearchFindsSubstrings(row: SearchRow, search: Option<string>, trim: string -> string,
                              lowerJs: string -> string, lowerSql: string -> string)
    ensures SearchCondition(row, search, trim, lowerJs, lowerSql) <==>
            || search.None? || trim(search.value) == ""
            || Contains(lowerSql(GetOr(row.actorUsername, "")), lowerJs(trim(search.value)))
            || Contains(lowerSql(GetOr(row.entityName, "")), lowerJs(trim(search.value)))
            || Contains(lowerSql(GetOr(row.ipAddress, "")), lowerJs(trim(search.value)))
  {
    if search.Some? {
      var wanted := lowerJs(trim(search.value));
      SearchPatternIsContains(lowerSql(GetOr(row.actorUsername, "")), wanted);
      SearchPatternIsContains(lowerSql(GetOr(row.entityName, "")), wanted);
      SearchPatternIsContains(lowerSql(GetOr(row.ipAddress, "")), wanted);
    }
  }

  // ---------------------------------------------------------------- the branch search

  /** `raw.replace(/[%_\\]/g, '\\$1')`: with no capture group, `$1` stays as it is. */
  function BranchEscapeLike(raw: string): string {
    if raw == "" then ""
    else (if Special(raw[0]) then "\\$1" else [raw[0]]) + BranchEscapeLike(raw[1..])
  }

  predicate Plain(s: string) {
    forall i :: 0 <= i < |s| ==> !Special(s[i])
  }

  /** What a branch search really looks for: every special character became `$1`. */
  function BranchWanted(raw: string): (wanted: string)
    ensures |wanted| >= |raw|
    ensures |wanted| == |raw| <==> Plain(raw)
    ensures Plain(raw) ==> wanted == raw
  {
    if raw == "" then ""
    else
      var rest := BranchWanted(raw[1..]);
      assert Plain(raw) <==> !Special(raw[0]) && Plain(raw[1..]) by {
        PlainSplit(raw);
      }
      (if Special(raw[0]) then "$1" else [raw[0]]) + rest
  }

  lemma PlainSplit(raw: string)
    requires raw != ""
    ensures Plain(raw) <==> !Special(raw[0]) && Plain(raw[1..])
  {
  }

  /** A pattern starting with an escaped dollar and a one. */
  lemma LikeDollarOne(text: string, rest: string)
    ensures Like(text, "\\$1" + rest) <==> "$1" <= text && Like(text[2..], rest)
  {
  }

  lemma BranchPatternStep(raw: string, tail: string)
    requires raw != ""
    ensures BranchEscapeLike(raw) + tail
         == (if Special(raw[0]) then "\\$1" else [raw[0]]) + (BranchEscapeLike(raw[1..]) + tail)
  {
  }

  /** Consuming a first piece and then the rest is consuming both. */
  lemma PrefixSplit(text: string, piece: string, rest: string)
    ensures piece + rest <= text <==> piece <= text && rest <= text[|piece|..]
    ensures piece + rest <= text ==> text[|piece + rest|..] == text[|piece|..][|rest|..]
  {
  }

  lemma {:induction false} LikeBranchEscaped(text: string, raw: string, tail: string)
    ensures Like(text, BranchEscapeLike(raw) + tail) <==>
            BranchWanted(raw) <= text && Like(text[|BranchWanted(raw)|..], tail)
  {
    if raw == "" {
      assert BranchEscapeLike(raw) + tail == tail && text[0..] == text;
    } else {
      var c, rest := raw[0], raw[1..];
      var remainder := BranchEscapeLike(rest) + tail;
      var piece := if Special(c) then "$1" else [c];
      BranchPatternStep(raw, tail);
      LikeDollarOne(text, remainder);
      LikeStep(text, c, remainder);
      PrefixSplit(text, piece, BranchWanted(rest));
      if piece <= text {
        LikeBranchEscaped(text[|piece|..], rest, tail);
      }
    }
  }

  lemma BranchSearchFindsWanted(text: string, raw: string)
    ensures Like(text, "%" + BranchEscapeLike(raw) + "%") <==> Contains(text, BranchWanted(raw))
  {
    var inner := BranchEscapeLike(raw) + "%";
    assert "%" + BranchEscapeLike(raw) + "%" == "%" + inner;
    assert ("%" + inner)[1..] == inner;
    forall k | 0 <= k <= |text|
      ensures Like(text[k..], inner) <==> BranchWanted(raw) <= text[k..]
    {
      LikeBranchEscaped(text[k..], raw, "%");
      if BranchWanted(raw) <= text[k..] {
        LikePercent(text[k..][|BranchWanted(raw)|..]);
      }
    }
  }

  /** The branch search is a substring search exactly for strings without a special character. */
  lemma BranchSearchCorrectIffPlain(raw: string)
    ensures (forall text: string :: Like(text, "%" + BranchEscapeLike(raw) + "%") <==> Contains(text, raw))
       <==> Plain(raw)
  {
    if Plain(raw) {
      forall text: string
        ensures Like(text, "%" + BranchEscapeLike(raw) + "%") <==> Contains(text, raw)
      {
        BranchSearchFindsWanted(text, raw);
      }
    } else {
      BranchSearchFindsWanted(raw, raw);
      assert raw <= raw[0..];
      assert Contains(raw, raw);
      assert !Contains(raw, BranchWanted(raw));
    }
  }
}
