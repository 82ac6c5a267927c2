// The dismount argument of cimfs/src/bin/cimutil.rs and the volume path its mount command
// prints: the id is normalised by stripping leading `Volume{` and `{` runs and trailing `}`
// runs, and the printed path is `\\?\Volume{` + the GUID's text + `}`.
module VolumeIds {
  import opened Core

  // ---------------------------------------------------------------------------------------
  // Dismount: normalising the volume id

  predicate StartsWith(s: string, p: string) {
    |p| <= |s| && s[..|p|] == p
  }

  predicate EndsWith(s: string, p: string) {
    |p| <= |s| && s[|s| - |p|..] == p
  }

  /** str::trim_start_matches with a string pattern: strips every leading copy of pat. */
  function TrimStartMatches(s: string, pat: string): (r: string)
    ensures |r| <= |s|
    ensures pat != [] ==> !StartsWith(r, pat)
    ensures pat == [] ==> r == s
    decreases |s|
  {
    if pat != [] && StartsWith(s, pat) then TrimStartMatches(s[|pat|..], pat) else s
  }

  /** str::trim_end_matches with a string pattern: strips every trailing copy of pat. */
  function TrimEndMatches(s: string, pat: string): (r: string)
    ensures |r| <= |s|
    ensures pat != [] ==> !EndsWith(r, pat)
    ensures pat == [] ==> r == s
    decreases |s|
  {
    if pat != [] && EndsWith(s, pat) then TrimEndMatches(s[..|s| - |pat|], pat) else s
  }

  /** n copies of p. */
  function Repeat(p: string, n: nat): string {
    if n == 0 then [] else p + Repeat(p, n - 1)
  }

  /** The dismount argument with leading runs of `Volume{`, then of `{`, and trailing runs of `}` removed. */
  function TrimVolumeId(volume: string): string {
    TrimEndMatches(TrimStartMatches(TrimStartMatches(volume, "Volume{"), "{"), "}")
  }

  /** GUID text has no braces of its own. */
  predicate Braceless(g: string) {
    forall i :: 0 <= i < |g| ==> g[i] != '{' && g[i] != '}'
  }

  /** The two halves of a concatenation. */
  lemma Halves(u: string, v: string)
    ensures (u + v)[..|u|] == u && (u + v)[|u|..] == v
  {
  }

  lemma {:induction false} TrimStartOfRepeat(pat: string, n: nat, t: string)
    requires pat != [] && !StartsWith(t, pat)
    ensures TrimStartMatches(Repeat(pat, n) + t, pat) == t
    decreases n
  {
    if n > 0 {
      var u := Repeat(pat, n - 1) + t;
      assert Repeat(pat, n) + t == pat + u;
      Halves(pat, u);
      assert TrimStartMatches(pat + u, pat) == TrimStartMatches(u, pat);
      TrimStartOfRepeat(pat, n - 1, t);
    }
  }

  lemma {:induction false} RepeatSnoc(p: string, n: nat)
    requires n > 0
    ensures Repeat(p, n) == Repeat(p, n - 1) + p
    decreases n
  {
    if n > 1 {
      RepeatSnoc(p, n - 1);
    }
  }

  /** One trailing copy of pat is stripped. */
  lemma TrimEndStep(u: string, pat: string)
    requires pat != []
    ensures TrimEndMatches(u + pat, pat) == TrimEndMatches(u, pat)
  {
    Halves(u, pat);
    assert EndsWith(u + pat, pat);
  }

  lemma {:induction false} TrimEndOfRepeat(t: string, pat: string, n: nat)
    requires pat != [] && !EndsWith(t, pat)
    ensures TrimEndMatches(t + Repeat(pat, n), pat) == t
    decreases n
  {
    if n > 0 {
      TrimEndMore(t, pat, n);
      TrimEndOfRepeat(t, pat, n - 1);
    } else {
      assert t + [] == t;
    }
  }

  lemma TrimEndMore(t: string, pat: string, n: nat)
    requires pat != [] && n > 0
    ensures TrimEndMatches(t + Repeat(pat, n), pat) == TrimEndMatches(t + Repeat(pat, n - 1), pat)
  {
    var r := Repeat(pat, n - 1);
    RepeatSnoc(pat, n);
    AppendAssoc(t, r, pat);
    TrimEndStep(t + r, pat);
  }
  /** n copies of a one-character string, as a sequence of that character. */
  lemma {:induction false} RepeatChar(ch: char, n: nat)
    ensures Repeat([ch], n) == seq(n, _ => ch)
    decreases n
  {
    if n > 0 {
      RepeatChar(ch, n - 1);
      assert [ch] + seq(n - 1, _ => ch) == seq(n, _ => ch);
    }
  }

  lemma NoVolumePrefix(g: string, b: nat, c: nat)
    requires Braceless(g)
    ensures !StartsWith(Repeat("{", b) + (g + Repeat("}", c)), "Volume{")
  {
    var tail := Repeat("}", c);
    var rest := Repeat("{", b) + (g + tail);
    RepeatChar('}', c);
    RepeatChar('{', b);
    if |rest| >= 7 {
      if b > 0 {
        assert rest[0] == '{';
        assert rest[..7][0] != "Volume{"[0];
      } else {
        assert rest == g + tail;
        assert rest[6] != '{' by {
          if 6 < |g| {
            assert rest[6] == g[6];
          } else {
            assert rest[6] == tail[6 - |g|];
          }
        }
        assert rest[..7][6] != "Volume{"[6];
      }
    }
  }

  lemma NoBracePrefix(g: string, c: nat)
    requires Braceless(g)
    ensures !StartsWith(g + Repeat("}", c), "{")
  {
    var tail := Repeat("}", c);
    var inner := g + tail;
    RepeatChar('}', c);
    if |inner| > 0 {
      if |g| > 0 {
        assert inner[0] == g[0];
      } else {
        assert inner[0] == tail[0];
      }
      assert inner[..1][0] != "{"[0];
    }
  }

  lemma NoBraceSuffix(g: string)
    requires Braceless(g)
    ensures !EndsWith(g, "}")
  {
    if |g| > 0 {
      assert g[|g| - 1..][0] != "}"[0];
    }
  }

  /** Stripping runs of p1, then of p2, from the front and runs of p3 from the back. */
  lemma TrimRuns(g: string, p1: string, p2: string, p3: string, a: nat, b: nat, c: nat)
    requires p1 != [] && p2 != [] && p3 != []
    requires !StartsWith(Repeat(p2, b) + (g + Repeat(p3, c)), p1)
    requires !StartsWith(g + Repeat(p3, c), p2) && !EndsWith(g, p3)
    ensures TrimEndMatches(TrimStartMatches(TrimStartMatches(Repeat(p1, a) + (Repeat(p2, b) + (g + Repeat(p3, c))), p1), p2), p3) == g
  {
    TrimStartOfRepeat(p1, a, Repeat(p2, b) + (g + Repeat(p3, c)));
    TrimStartOfRepeat(p2, b, g + Repeat(p3, c));
    TrimEndOfRepeat(g, p3, c);
  }

  /**
   * Any number of leading `Volume{`, then any number of leading `{`, and any number of
   * trailing `}` around a GUID's text are all stripped, leaving the text itself.
   */
  lemma TrimVolumeIdStripsRuns(g: string, a: nat, b: nat, c: nat)
    requires Braceless(g)
    ensures TrimVolumeId(Repeat("Volume{", a) + (Repeat("{", b) + (g + Repeat("}", c)))) == g
  {
    NoVolumePrefix(g, b, c);
    NoBracePrefix(g, c);
    NoBraceSuffix(g);
    TrimRuns(g, "Volume{", "{", "}", a, b, c);
  }

  /** A volume id made of a runs of `Volume{`, b runs of `{`, the GUID's text and c runs of `}`. */
  lemma FormAgrees(g: string, a: nat, b: nat, c: nat, volume: string)
    requires Braceless(g)
    requires volume == Repeat("Volume{", a) + (Repeat("{", b) + (g + Repeat("}", c)))
    ensures TrimVolumeId(volume) == g
  {
    TrimVolumeIdStripsRuns(g, a, b, c);
  }

  /** The three documented forms of the dismount argument name the same volume. */
  lemma DismountFormsAgree(g: string)
    requires Braceless(g)
    ensures TrimVolumeId("Volume{" + g + "}") == g
    ensures TrimVolumeId("{" + g + "}") == g
    ensures TrimVolumeId(g) == g
  {
    assert Repeat("Volume{", 1) == "Volume{" && Repeat("Volume{", 0) == [];
    assert Repeat("{", 1) == "{" && Repeat("}", 0) == [];
    FormAgrees(g, 1, 0, 1, "Volume{" + g + "}");
    FormAgrees(g, 0, 1, 1, "{" + g + "}");
    FormAgrees(g, 0, 0, 0, g);
  }

  // ---------------------------------------------------------------------------------------
  // Mount: the volume path

  /** The volume path Mount prints: `\\?\Volume{` + the GUID's text + `}`. */
  function VolumePath(guidText: string): (p: string)
    ensures |p| == |guidText| + 12
    ensures p[..4] == "\\\\?\\" && p[4..11] == "Volume{" && p[|p| - 1] == '}'
    ensures p[11..|p| - 1] == guidText
  {
    "\\\\?\\Volume{" + guidText + "}"
  }

  /**
   * The path Mount prints, without its `\\?\` prefix, is a form Dismount accepts: it
   * normalises back to the GUID's text.
   */
  lemma PrintedPathDismounts(guidText: string)
    requires Braceless(guidText)
    ensures TrimVolumeId(VolumePath(guidText)[4..]) == guidText
  {
    assert VolumePath(guidText)[4..] == "Volume{" + guidText + "}";
    DismountFormsAgree(guidText);
  }
}
