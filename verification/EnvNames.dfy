/**
 Configuration keys from environment variables: the prefix goes, letters become lower case,
 and every "__" becomes a level separator, leftmost first and without overlaps.
 */
module EnvNames {
  const PREFIX := "JOGHD_"

  function LowerChar(c: char): char {
    if 'A' <= c <= 'Z' then ((c as int) + 32) as char else c
  }

  function UpperChar(c: char): char {
    if 'a' <= c <= 'z' then ((c as int) - 32) as char else c
  }

  function Lower(s: string): (r: string)
    ensures |r| == |s| && forall i :: 0 <= i < |s| ==> r[i] == LowerChar(s[i])
  {
    seq(|s|, i requires 0 <= i < |s| => LowerChar(s[i]))
  }

  function Upper(s: string): (r: string)
    ensures |r| == |s| && forall i :: 0 <= i < |s| ==> r[i] == UpperChar(s[i])
  {
    seq(|s|, i requires 0 <= i < |s| => UpperChar(s[i]))
  }

  function TrimPrefix(s: string, prefix: string): string {
    if prefix <= s then s[|prefix|..] else s
  }

  predicate StartsWithSeparator(s: string) {
    |s| >= 2 && s[0] == '_' && s[1] == '_'
  }

  /** `strings.ReplaceAll(s, "__", ".")`. */
  function ReplaceSeparators(s: string): string {
    if s == "" then ""
    else if StartsWithSeparator(s) then "." + ReplaceSeparators(s[2..])
    else [s[0]] + ReplaceSeparators(s[1..])
  }

  /** The configuration key an environment variable overrides. */
  function Transform(key: string): string {
    ReplaceSeparators(Lower(TrimPrefix(key, PREFIX)))
  }

  function Join(segments: seq<string>, separator: string): string {
    if segments == [] then ""
    else if |segments| == 1 then segments[0]
    else segments[0] + separator + Join(segments[1..], separator)
  }

  /** The variable that is meant to override the key with these segments. */
  function EnvName(segments: seq<string>): string {
    PREFIX + Upper(Join(segments, "__"))
  }

  function KeyName(segments: seq<string>): string {
    Join(segments, ".")
  }

  // ---------------------------------------------------------------------------
  // The round trip.

  predicate HasUpper(s: string) { exists i :: 0 <= i < |s| && 'A' <= s[i] <= 'Z' }

  predicate HasSeparator(s: string) { exists i :: 0 <= i < |s| - 1 && s[i] == '_' && s[i + 1] == '_' }

  predicate EndsInUnderscore(s: string) { |s| > 0 && s[|s| - 1] == '_' }

  /** A segment that `Transform` gives back; only the last one may end in an underscore. */
  predicate Clean(s: string, last: bool) {
    !HasUpper(s) && !HasSeparator(s) && (last || !EndsInUnderscore(s))
  }

  predicate AllClean(segments: seq<string>) {
    forall i :: 0 <= i < |segments| ==> Clean(segments[i], i == |segments| - 1)
  }

  /** Lower-casing undoes upper-casing on everything but capital letters. */
  lemma LowerOfUpper(s: string)
    ensures Lower(Upper(s)) == Lower(s)
    ensures Lower(s) == s <==> !HasUpper(s)
  {
    forall i | 0 <= i < |s| ensures Lower(Upper(s))[i] == Lower(s)[i] {}
    if Lower(s) == s {
      forall i | 0 <= i < |s| ensures !('A' <= s[i] <= 'Z') {
        assert Lower(s)[i] == s[i];
      }
    }
  }

  lemma TransformOfEnvName(segments: seq<string>)
    ensures Transform(EnvName(segments)) == ReplaceSeparators(Lower(Join(segments, "__")))
  {
    var s := Upper(Join(segments, "__"));
    assert (PREFIX + s)[|PREFIX|..] == s;
    LowerOfUpper(Join(segments, "__"));
  }

  lemma TailHasSeparator(s: string)
    requires |s| >= 1 && !StartsWithSeparator(s)
    ensures HasSeparator(s[1..]) <==> HasSeparator(s)
  {
    if HasSeparator(s) {
      var i :| 0 <= i < |s| - 1 && s[i] == '_' && s[i + 1] == '_';
      assert s[1..][i - 1] == '_' && s[1..][i] == '_';
    }
    if HasSeparator(s[1..]) {
      var i :| 0 <= i < |s[1..]| - 1 && s[1..][i] == '_' && s[1..][i + 1] == '_';
      assert s[i + 1] == '_' && s[i + 2] == '_';
    }
  }

  /** Whether a separator starts at the front of `s + rest`, read off `s` and the front of `rest`. */
  lemma FrontSeparator(s: string, rest: string)
    requires s != ""
    ensures |s| >= 2 ==> (StartsWithSeparator(s + rest) <==> StartsWithSeparator(s))
    ensures |s| == 1 ==> (StartsWithSeparator(s + rest) <==> s[0] == '_' && rest != "" && rest[0] == '_')
    ensures (s + rest)[1..] == s[1..] + rest
    ensures StartsWithSeparator(s) ==> HasSeparator(s)
  {
    if |s| == 1 && rest != "" {
      assert (s + rest)[1] == rest[0];
    }
  }

  /** Scanning `s + rest` reproduces `s` while no separator starts inside it. */
  lemma {:induction false} ScanCleanSegment(s: string, rest: string)
    requires !HasSeparator(s)
    requires rest == "" || !EndsInUnderscore(s) || rest[0] != '_'
    ensures ReplaceSeparators(s + rest) == s + ReplaceSeparators(rest)
  {
    if s == "" {
      assert s + rest == rest;
    } else {
      FrontSeparator(s, rest);
      TailHasSeparator(s);
      ScanCleanSegment(s[1..], rest);
    }
  }

  /** Where a separator starts inside `s` or at its end, the scan deviates from `s`. */
  lemma {:induction false} ScanDirtySegment(s: string, rest: string, expected: string)
    requires HasSeparator(s) || (EndsInUnderscore(s) && rest != "" && rest[0] == '_')
    ensures ReplaceSeparators(s + rest) != s + expected
  {
    FrontSeparator(s, rest);
    if StartsWithSeparator(s + rest) {
      assert (s + rest)[0] == s[0] == (s + expected)[0];
    } else {
      TailHasSeparator(s);
      ScanDirtySegment(s[1..], rest, expected);
      assert ReplaceSeparators(s + rest)[1..] == ReplaceSeparators(s[1..] + rest);
      assert (s + expected)[1..] == s[1..] + expected;
    }
  }

  lemma JoinTwo(segments: seq<string>, separator: string)
    requires |segments| > 1
    ensures Join(segments, separator) == segments[0] + (separator + Join(segments[1..], separator))
  {
  }

  /** Among segments without capitals, the clean lists are exactly those the scan gives back. */
  lemma {:induction false} ScanExactly(segments: seq<string>)
    requires forall i :: 0 <= i < |segments| ==> !HasUpper(segments[i])
    ensures ReplaceSeparators(Join(segments, "__")) == Join(segments, ".") <==> AllClean(segments)
  {
    if |segments| == 1 {
      var s := segments[0];
      assert s + "" == s;
      if HasSeparator(s) { ScanDirtySegment(s, "", ""); } else { ScanCleanSegment(s, ""); }
    } else if |segments| > 1 {
      var s, tail := segments[0], segments[1..];
      var rest, expected := "__" + Join(tail, "__"), "." + Join(tail, ".");
      JoinTwo(segments, "__");
      JoinTwo(segments, ".");
      CleanTail(segments);
      ScanExactly(tail);
      if Clean(s, false) {
        ScanCleanSegment(s, rest);
        assert rest[2..] == Join(tail, "__");
        var scanned := ReplaceSeparators(Join(tail, "__"));
        assert ReplaceSeparators(s + rest) == s + ("." + scanned);
        assert (s + ("." + scanned))[|s| + 1..] == scanned && (s + expected)[|s| + 1..] == Join(tail, ".");
      } else {
        ScanDirtySegment(s, rest, expected);
      }
    }
  }

  lemma CleanTail(segments: seq<string>)
    requires |segments| > 1
    ensures AllClean(segments) <==> Clean(segments[0], false) && AllClean(segments[1..])
  {
    var tail := segments[1..];
    if Clean(segments[0], false) && AllClean(tail) {
      forall i | 0 <= i < |segments| ensures Clean(segments[i], i == |segments| - 1) {
        assert i > 0 ==> segments[i] == tail[i - 1];
      }
    }
    if AllClean(segments) {
      assert Clean(segments[0], false);
      forall i | 0 <= i < |tail| ensures Clean(tail[i], i == |tail| - 1) {
        assert tail[i] == segments[i + 1];
      }
    }
  }

  /** The scan neither adds nor keeps capitals. */
  lemma {:induction false} ScanHasNoUpper(s: string)
    requires !HasUpper(s)
    ensures !HasUpper(ReplaceSeparators(s))
  {
    if s != "" {
      if StartsWithSeparator(s) { ScanHasNoUpper(s[2..]); } else { ScanHasNoUpper(s[1..]); }
    }
  }

  lemma {:induction false} JoinHasUpper(segments: seq<string>, separator: string, i: nat)
    requires i < |segments| && HasUpper(segments[i])
    ensures HasUpper(Join(segments, separator))
  {
    if |segments| > 1 {
      var joined := Join(segments, separator);
      if i == 0 {
        var k :| 0 <= k < |segments[0]| && 'A' <= segments[0][k] <= 'Z';
        assert joined[k] == segments[0][k];
      } else {
        JoinHasUpper(segments[1..], separator, i - 1);
        var tail := Join(segments[1..], separator);
        var k :| 0 <= k < |tail| && 'A' <= tail[k] <= 'Z';
        assert joined[|segments[0]| + |separator| + k] == tail[k];
      }
    }
  }

  lemma {:induction false} JoinHasNoUpper(segments: seq<string>, separator: string)
    requires !HasUpper(separator) && forall i :: 0 <= i < |segments| ==> !HasUpper(segments[i])
    ensures !HasUpper(Join(segments, separator))
  {
    if |segments| > 1 {
      JoinHasNoUpper(segments[1..], separator);
    }
  }

  /**
   Every list of segments: its environment variable overrides the key made of these segments
   exactly when no segment has a capital letter or a double underscore and none but the last
   ends in an underscore.
   */
  lemma EnvNameRoundTripExactly(segments: seq<string>)
    ensures Transform(EnvName(segments)) == KeyName(segments) <==> AllClean(segments)
  {
    TransformOfEnvName(segments);
    var joined := Join(segments, "__");
    if i: nat :| i < |segments| && HasUpper(segments[i]) {
      JoinHasUpper(segments, ".", i);
      LowerOfUpper(Lower(joined));
      LowerIsLower(joined);
      ScanHasNoUpper(Lower(joined));
      assert !Clean(segments[i], i == |segments| - 1);
    } else {
      JoinHasNoUpper(segments, "__");
      LowerOfUpper(joined);
      ScanExactly(segments);
    }
  }

  lemma LowerIsLower(s: string)
    ensures !HasUpper(Lower(s))
  {
  }

  /** An alerter called "team_" cannot be configured from the environment: its underscore is taken for a level. */
  lemma TrailingUnderscoreBreaksTheName(field: string)
    ensures var segments := ["alerters", "team_", field];
            Transform(EnvName(segments)) != KeyName(segments)
  {
    var segments := ["alerters", "team_", field];
    assert EndsInUnderscore(segments[1]) && !Clean(segments[1], false);
    EnvNameRoundTripExactly(segments);
  }

  /** The name of a variable, spelled out: the prefix, and the segments in capitals with double underscores between. */
  lemma EnvNameSpelledOut(a: string, b: string)
    ensures EnvName([a]) == "JOGHD_" + Upper(a)
    ensures EnvName([a, b]) == "JOGHD_" + Upper(a) + "__" + Upper(b)
    ensures KeyName([a, b]) == a + "." + b
  {
    assert Join([a, b], "__") == a + "__" + b by { JoinTwo([a, b], "__"); }
    assert Join([a, b], ".") == a + "." + b by { JoinTwo([a, b], "."); }
    assert Upper(a + "__" + b) == Upper(a) + "__" + Upper(b);
  }

  /** Variable names have no small letters, and a name that lacks the prefix is read as if it had it. */
  lemma NamesAreUpperCase(segments: seq<string>, key: string)
    ensures forall i :: 0 <= i < |EnvName(segments)| ==> !('a' <= EnvName(segments)[i] <= 'z')
    ensures !("JOGHD_" <= key) ==> Transform(key) == Transform("JOGHD_" + key)
  {
    assert ("JOGHD_" + key)[|PREFIX|..] == key;
  }

  /** Every level separator spelled as in a variable name again. */
  function Spelled(key: string): string {
    if key == "" then "" else (if key[0] == '.' then "__" else [key[0]]) + Spelled(key[1..])
  }

  lemma SpelledOnFront(front: char, rest: string)
    ensures Spelled([front] + rest) == (if front == '.' then "__" else [front]) + Spelled(rest)
  {
    assert ([front] + rest)[1..] == rest;
  }

  /**
   Whatever the name of a variable, the scan loses nothing and leaves no double underscore behind,
   and of three underscores in a row it is the first two that make a level.
   */
  lemma {:induction false} ScanLosesNothing(s: string)
    requires '.' !in s
    ensures Spelled(ReplaceSeparators(s)) == s
    ensures !HasSeparator(ReplaceSeparators(s))
    ensures ReplaceSeparators("___" + s) == "." + ReplaceSeparators("_" + s)
  {
    assert ("___" + s)[2..] == "_" + s;
    if s != "" {
      if StartsWithSeparator(s) {
        ScanLosesNothing(s[2..]);
        SpelledOnFront('.', ReplaceSeparators(s[2..]));
        assert s == "__" + s[2..];
        FrontHasSeparator('.', ReplaceSeparators(s[2..]));
      } else {
        ScanLosesNothing(s[1..]);
        SpelledOnFront(s[0], ReplaceSeparators(s[1..]));
        assert s == [s[0]] + s[1..];
        FrontHasSeparator(s[0], ReplaceSeparators(s[1..]));
        ScanKeepsFront(s[1..]);
      }
    }
  }

  lemma FrontHasSeparator(front: char, rest: string)
    requires !HasSeparator(rest) && !(front == '_' && rest != "" && rest[0] == '_')
    ensures !HasSeparator([front] + rest)
  {
    var all := [front] + rest;
    forall i | 0 <= i < |all| - 1 ensures !(all[i] == '_' && all[i + 1] == '_') {
      if i > 0 {
        assert all[i] == rest[i - 1] && all[i + 1] == rest[i];
      }
    }
  }

  lemma ScanKeepsFront(s: string)
    ensures ReplaceSeparators(s) != "" && ReplaceSeparators(s)[0] == '_' ==> s != "" && s[0] == '_'
  {
  }
}
