/** `sanitizeMetricName` of kostal2influx.go: three successive replace-all
    passes that turn a composed name into a Prometheus-compatible metric name
    (space to `_`, `/` to `_`, `%` to `percent`). */
module Sanitizer {

  /** `strings.ReplaceAll(s, [c], r)`: every occurrence of the one-character
      pattern `c`, scanned left to right, is replaced by `r`. */
  function ReplaceAll(s: string, c: char, r: string): string
  {
    if s == [] then []
    else (if s[0] == c then r else [s[0]]) + ReplaceAll(s[1..], c, r)
  }

  /** The name as the three passes of the source leave it. */
  function SanitizeMetricName(name: string): string
  {
    ReplaceAll(ReplaceAll(ReplaceAll(name, ' ', "_"), '/', "_"), '%', "percent")
  }

  /** The characters the sanitiser replaces. */
  predicate Forbidden(c: char) {
    c == ' ' || c == '/' || c == '%'
  }

  /** No character of `s` is one the sanitiser replaces. */
  predicate Clean(s: string) {
    forall i :: 0 <= i < |s| ==> !Forbidden(s[i])
  }

  /** Reference reading, one input character at a time: what a single
      character turns into. */
  function SanitizeChar(c: char): (r: string)
    ensures Clean(r)
    ensures !Forbidden(c) ==> r == [c]
    ensures |r| == if c == '%' then 7 else 1
  {
    if c == ' ' || c == '/' then "_" else if c == '%' then "percent" else [c]
  }

  /** Reference reading: the images of the characters, concatenated in order. */
  function SanitizeEach(s: string): string
  {
    if s == [] then [] else SanitizeChar(s[0]) + SanitizeEach(s[1..])
  }

  /** Number of occurrences of `c` in `s`. */
  function Count(s: string, c: char): nat
  {
    if s == [] then 0 else (if s[0] == c then 1 else 0) + Count(s[1..], c)
  }

  lemma {:induction false} ReplaceAllAppend(a: string, b: string, c: char, r: string)
    ensures ReplaceAll(a + b, c, r) == ReplaceAll(a, c, r) + ReplaceAll(b, c, r)
  {
    if a == [] {
      assert a + b == b;
    } else {
      assert (a + b)[0] == a[0];
      assert (a + b)[1..] == a[1..] + b;
      ReplaceAllAppend(a[1..], b, c, r);
    }
  }

  /** The three passes equal the one-pass reference: each character is mapped
      on its own, and the images appear in the order of the input. */
  lemma {:induction false} SanitizeIsPerCharacter(s: string)
    ensures SanitizeMetricName(s) == SanitizeEach(s)
  {
    if s != [] {
      var h, t := s[0], s[1..];
      assert s == [h] + t;
      ReplaceAllAppend([h], t, ' ', "_");
      var a1 := ReplaceAll([h], ' ', "_");
      var b1 := ReplaceAll(t, ' ', "_");
      ReplaceAllAppend(a1, b1, '/', "_");
      var a2 := ReplaceAll(a1, '/', "_");
      var b2 := ReplaceAll(b1, '/', "_");
      ReplaceAllAppend(a2, b2, '%', "percent");
      assert ReplaceAll(a2, '%', "percent") == SanitizeChar(h);
      SanitizeIsPerCharacter(t);
    }
  }

  lemma {:induction false} SanitizeEachAppend(a: string, b: string)
    ensures SanitizeEach(a + b) == SanitizeEach(a) + SanitizeEach(b)
  {
    if a == [] {
      assert a + b == b;
    } else {
      assert (a + b)[0] == a[0];
      assert (a + b)[1..] == a[1..] + b;
      SanitizeEachAppend(a[1..], b);
    }
  }

  lemma {:induction false} CleanAppend(a: string, b: string)
    requires Clean(a) && Clean(b)
    ensures Clean(a + b)
  {
    assert forall i :: 0 <= i < |a + b| ==> (a + b)[i] == (if i < |a| then a[i] else b[i - |a|]);
  }

  /** The sanitiser distributes over concatenation, so a composed name is
      sanitised piece by piece. */
  lemma SanitizeAppend(a: string, b: string)
    ensures SanitizeMetricName(a + b) == SanitizeMetricName(a) + SanitizeMetricName(b)
  {
    SanitizeIsPerCharacter(a + b);
    SanitizeIsPerCharacter(a);
    SanitizeIsPerCharacter(b);
    SanitizeEachAppend(a, b);
  }

  lemma {:induction false} SanitizeEachClean(s: string)
    ensures Clean(SanitizeEach(s))
  {
    if s != [] {
      SanitizeEachClean(s[1..]);
      CleanAppend(SanitizeChar(s[0]), SanitizeEach(s[1..]));
    }
  }

  /** No space, `/` or `%` survives sanitising. */
  lemma SanitizeIsClean(s: string)
    ensures Clean(SanitizeMetricName(s))
    ensures ' ' !in SanitizeMetricName(s) && '/' !in SanitizeMetricName(s) && '%' !in SanitizeMetricName(s)
  {
    SanitizeIsPerCharacter(s);
    SanitizeEachClean(s);
  }

  lemma {:induction false} SanitizeEachLength(s: string)
    ensures |SanitizeEach(s)| == |s| + 6 * Count(s, '%')
  {
    if s != [] {
      SanitizeEachLength(s[1..]);
    }
  }

  /** Each `%` grows the name by six characters; every other character keeps
      its length of one. */
  lemma SanitizeLength(s: string)
    ensures |SanitizeMetricName(s)| == |s| + 6 * Count(s, '%')
  {
    SanitizeIsPerCharacter(s);
    SanitizeEachLength(s);
  }

  lemma {:induction false} SanitizeEachIdentity(s: string)
    requires Clean(s)
    ensures SanitizeEach(s) == s
  {
    if s != [] {
      assert Clean(s[1..]) by {
        assert forall i :: 0 <= i < |s[1..]| ==> s[1..][i] == s[i + 1];
      }
      SanitizeEachIdentity(s[1..]);
    }
  }

  /** A name with no space, `/` or `%` is left unchanged, and only such names
      are. */
  lemma SanitizeIdentity(s: string)
    ensures SanitizeMetricName(s) == s <==> Clean(s)
  {
    SanitizeIsClean(s);
    if Clean(s) {
      SanitizeIsPerCharacter(s);
      SanitizeEachIdentity(s);
    }
  }

  /** Sanitising twice is sanitising once. */
  lemma SanitizeIdempotent(s: string)
    ensures SanitizeMetricName(SanitizeMetricName(s)) == SanitizeMetricName(s)
  {
    SanitizeIsClean(s);
    SanitizeIdentity(SanitizeMetricName(s));
  }

  lemma {:induction false} SanitizeEachChars(s: string, c: char)
    requires c in SanitizeEach(s)
    ensures c in s || c in "_percent"
  {
    if s != [] {
      if c !in SanitizeChar(s[0]) {
        SanitizeEachChars(s[1..], c);
      }
    }
  }

  /** Every character of the result comes from the input or from the
      replacement texts `_` and `percent`. */
  lemma SanitizeChars(s: string, c: char)
    requires c in SanitizeMetricName(s)
    ensures c in s || c in "_percent"
  {
    SanitizeIsPerCharacter(s);
    SanitizeEachChars(s, c);
  }

  /** A name composed of clean fixed parts and free parts is sanitised in
      the free parts only. */
  lemma SanitizeJoin(p: string, a: string, q: string, b: string)
    requires Clean(p) && Clean(q)
    ensures SanitizeMetricName(p + a + q + b) == p + SanitizeMetricName(a) + q + SanitizeMetricName(b)
  {
    SanitizeAppend(p + a + q, b);
    SanitizeAppend(p + a, q);
    SanitizeAppend(p, a);
    SanitizeIdentity(p);
    SanitizeIdentity(q);
  }

  /** A one-character name sanitises to the image of its character. */
  lemma SanitizeSingle(c: char)
    ensures SanitizeMetricName([c]) == SanitizeChar(c)
  {
    SanitizeIsPerCharacter([c]);
  }

  /** A clean name, a character, and a clean name: only the middle changes. */
  lemma SanitizeAround(a: string, c: char, b: string)
    requires Clean(a) && Clean(b)
    ensures SanitizeMetricName(a + [c] + b) == a + SanitizeChar(c) + b
  {
    SanitizeAppend(a, [c]);
    SanitizeAppend(a + [c], b);
    SanitizeSingle(c);
    SanitizeIdentity(a);
    SanitizeIdentity(b);
  }

  /** The sanitiser test's cases with a character to replace. The names are
      parameters so that the verifier does not unfold the sanitiser on the
      literals. `AC Voltage` becomes `AC_Voltage`. */
  lemma SanitizeSpaceExample(ac: string)
    requires ac == "AC Voltage"
    ensures SanitizeMetricName(ac) == "AC_Voltage"
  {
    assert Clean("AC") && Clean("Voltage");
    assert ac == "AC" + [' '] + "Voltage";
    SanitizeAround("AC", ' ', "Voltage");
  }

  /** `Power/W` becomes `Power_W`. */
  lemma SanitizeSlashExample(power: string)
    requires power == "Power/W"
    ensures SanitizeMetricName(power) == "Power_W"
  {
    assert Clean("Power") && Clean("W");
    assert power == "Power" + ['/'] + "W";
    SanitizeAround("Power", '/', "W");
  }

  /** `Temp %` becomes `Temp_percent`. */
  lemma SanitizePercentExample(temp: string)
    requires temp == "Temp %"
    ensures SanitizeMetricName(temp) == "Temp_percent"
  {
    assert Clean("Temp") && Clean("");
    assert temp == "Temp" + [' '] + "" + ['%'];
    SanitizeAround("Temp", ' ', "");
    SanitizeAppend("Temp" + [' '] + "", ['%']);
    SanitizeSingle('%');
  }

  /** The cases of the sanitiser test that are already clean. */
  lemma SanitizeCleanExamples()
    ensures SanitizeMetricName("simple_name") == "simple_name"
    ensures SanitizeMetricName("already_sanitized") == "already_sanitized"
  {
    assert Clean("simple_name");
    assert Clean("already_sanitized");
    SanitizeIdentity("simple_name");
    SanitizeIdentity("already_sanitized");
  }
}
