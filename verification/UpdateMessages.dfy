/** How the updater reads the text of a failed check. */
module UpdateMessages {

  function LowerChar(c: char): char {
    if 'A' <= c <= 'Z' then (c as int - 'A' as int + 'a' as int) as char else c
  }

  function Lower(s: string): string {
    if s == "" then "" else [LowerChar(s[0])] + Lower(s[1..])
  }

  predicate Includes(s: string, part: string) {
    part <= s || (s != "" && Includes(s[1..], part))
  }

  predicate IncludesAny(s: string, parts: seq<string>) {
    parts != [] && (Includes(s, parts[0]) || IncludesAny(s, parts[1..]))
  }

  const MANIFEST_MARKS: seq<string> := ["cannot find channel", "latest.yml", "latest-mac.yml", "latest-linux.yml"]

  const BENIGN_MARKS: seq<string> :=
    ["net::err_failed", "unable to find latest version on github", "cannot find channel",
     "latest.yml", "latest-mac.yml", "no published versions on github"]

  /** The manifest of a release is missing: the one failure that starts the fallback. */
  predicate IsMissingManifest(message: string) {
    Includes(Lower(message), "404") && IncludesAny(Lower(message), MANIFEST_MARKS)
  }

  /** Transient failures, not worth an error of their own. */
  predicate IsBenign(message: string) {
    IncludesAny(Lower(message), BENIGN_MARKS)
  }

  /** As far from 'A' as the other from 'a', up to 'Z'. */
  predicate IsCapitalOf(c: char, d: char) {
    'A' <= c <= 'Z' && d as int - 'a' as int == c as int - 'A' as int
  }

  /** A character of a text stands for one of a mark: it is that one, or its capital. */
  predicate StandsFor(c: char, d: char) {
    IsCapitalOf(c, d) || (c == d && !('A' <= c <= 'Z'))
  }

  /** The text has the part at `k`, but for the case of its letters. */
  predicate OccursAt(text: string, part: string, k: nat) {
    k + |part| <= |text| && forall i | 0 <= i < |part| :: StandsFor(text[k + i], part[i])
  }

  predicate Occurs(text: string, part: string) {
    exists k: nat :: k <= |text| && OccursAt(text, part, k)
  }

  lemma StandsForIff(c: char, d: char)
    ensures StandsFor(c, d) <==> LowerChar(c) == d
  {
  }

  lemma {:induction false} LowerAt(s: string, i: nat)
    requires i < |s|
    ensures |Lower(s)| == |s| && Lower(s)[i] == LowerChar(s[i])
  {
    if i > 0 {
      LowerAt(s[1..], i - 1);
    } else if |s| > 1 {
      LowerAt(s[1..], 0);
    }
  }

  lemma {:induction false} IncludesIff(s: string, part: string)
    ensures Includes(s, part) <==> exists k: nat :: k <= |s| && part <= s[k..]
  {
    assert s[0..] == s;
    if s != "" && !(part <= s) {
      IncludesIff(s[1..], part);
      if k: nat :| k <= |s[1..]| && part <= s[1..][k..] {
        assert s[1..][k..] == s[k + 1..];
      }
      if k: nat :| k <= |s| && part <= s[k..] {
        assert k > 0 && s[1..][k - 1..] == s[k..];
      }
    }
  }

  lemma OccursInLower(text: string, part: string, k: nat)
    requires k <= |text| == |Lower(text)|
    ensures part <= Lower(text)[k..] <==> OccursAt(text, part, k)
  {
    forall i | 0 <= i < |text| ensures Lower(text)[i] == LowerChar(text[i]) {
      LowerAt(text, i);
    }
    forall i | 0 <= i < |part| && k + i < |text|
      ensures StandsFor(text[k + i], part[i]) <==> Lower(text)[k..][i] == part[i]
    {
      StandsForIff(text[k + i], part[i]);
    }
    assert part <= Lower(text)[k..] <==>
      k + |part| <= |text| && forall i | 0 <= i < |part| :: Lower(text)[k..][i] == part[i];
  }

  lemma OccursIff(text: string, part: string)
    ensures Includes(Lower(text), part) <==> Occurs(text, part)
  {
    LowerLength(text);
    IncludesIff(Lower(text), part);
    forall k: nat | k <= |text| ensures part <= Lower(text)[k..] <==> OccursAt(text, part, k) {
      OccursInLower(text, part, k);
    }
  }

  lemma {:induction false} LowerLength(s: string)
    ensures |Lower(s)| == |s|
  {
    if s != "" {
      LowerLength(s[1..]);
    }
  }

  /** A failure is a missing manifest exactly if its text has "404" and one of four marks,
      in capitals or not. */
  lemma IsMissingManifestIff(text: string)
    ensures IsMissingManifest(text) <==>
      && Occurs(text, "404")
      && (|| Occurs(text, "cannot find channel") || Occurs(text, "latest.yml")
          || Occurs(text, "latest-mac.yml") || Occurs(text, "latest-linux.yml"))
  {
    OccursIff(text, "404");
    OccursIff(text, "cannot find channel");
    OccursIff(text, "latest.yml");
    OccursIff(text, "latest-mac.yml");
    OccursIff(text, "latest-linux.yml");
    IncludesFour(Lower(text), MANIFEST_MARKS);
  }

  lemma IncludesFour(s: string, parts: seq<string>)
    requires |parts| == 4
    ensures IncludesAny(s, parts) <==>
      Includes(s, parts[0]) || Includes(s, parts[1]) || Includes(s, parts[2]) || Includes(s, parts[3])
  {
    var second, third, fourth := parts[1..], parts[2..], parts[3..];
    assert second[1..] == third && third[1..] == fourth && fourth[1..] == [];
    assert IncludesAny(s, fourth) <==> Includes(s, parts[3]);
    assert IncludesAny(s, third) <==> Includes(s, parts[2]) || IncludesAny(s, fourth);
    assert IncludesAny(s, second) <==> Includes(s, parts[1]) || IncludesAny(s, third);
  }

  /** A failure is benign exactly if its text has one of six marks, in capitals or not. */
  lemma IsBenignIff(text: string)
    ensures IsBenign(text) <==>
      || Occurs(text, "net::err_failed") || Occurs(text, "unable to find latest version on github")
      || Occurs(text, "cannot find channel") || Occurs(text, "latest.yml") || Occurs(text, "latest-mac.yml")
      || Occurs(text, "no published versions on github")
  {
    OccursIff(text, "net::err_failed");
    OccursIff(text, "unable to find latest version on github");
    OccursIff(text, "cannot find channel");
    OccursIff(text, "latest.yml");
    OccursIff(text, "latest-mac.yml");
    OccursIff(text, "no published versions on github");
    IncludesTwoAndFour(Lower(text), BENIGN_MARKS);
  }

  lemma IncludesTwoAndFour(s: string, parts: seq<string>)
    requires |parts| == 6
    ensures IncludesAny(s, parts) <==>
      || Includes(s, parts[0]) || Includes(s, parts[1]) || Includes(s, parts[2]) || Includes(s, parts[3])
      || Includes(s, parts[4]) || Includes(s, parts[5])
  {
    assert parts[1..][1..] == parts[2..];
    IncludesFour(s, parts[2..]);
  }
}
