/** Scoring of user agents as attack tools: the case-blind search and what it really asks. */
module Indicators {
  import opened Common

  /** Equal up to the case of ASCII letters. */
  predicate SameFold(a: string, b: string) {
    |a| == |b| && forall i | 0 <= i < |a| :: LowerChar(a[i]) == LowerChar(b[i])
  }

  /** `sub` occurs in `s` at `i`, up to case. */
  predicate OccursAt(s: string, sub: string, i: nat) {
    i + |sub| <= |s| && SameFold(s[i..i + |sub|], sub)
  }

  /** `sub` occurs in `s`, up to case. */
  predicate Occurs(s: string, sub: string) {
    exists i :: 0 <= i <= |s| && OccursAt(s, sub, i)
  }

  method EqFold(a: string, b: string) returns (r: bool)
    ensures r == SameFold(a, b)
  {
    if |a| != |b| {
      return false;
    }
    for i := 0 to |a|
      invariant forall j | 0 <= j < i :: LowerChar(a[j]) == LowerChar(b[j])
    {
      if LowerChar(a[i]) != LowerChar(b[i]) {
        return false;
      }
    }
    return true;
  }

  /** The first position at which `sub` occurs, or none. */
  method IndexFold(s: string, sub: string) returns (r: Option<nat>)
    ensures r.Some? ==> OccursAt(s, sub, r.value) && forall j | 0 <= j < r.value :: !OccursAt(s, sub, j)
    ensures r.Some? <==> Occurs(s, sub)
  {
    var i := 0;
    while i + |sub| <= |s|
      invariant forall j | 0 <= j < i :: !OccursAt(s, sub, j)
    {
      var same := EqFold(s[i..i + |sub|], sub);
      if same {
        return Some(i);
      }
      i := i + 1;
    }
    return None;
  }

  method Contains(s: string, sub: string) returns (r: bool)
    ensures r == (sub != "" && Occurs(s, sub))
  {
    if |sub| == 0 {
      return false;
    }
    var at := IndexFold(s, sub);
    return at.Some?;
  }

  /** What the source's containment test computes: it looks for `s` in `sub`. */
  predicate ContainsFoldSpec(s: string, sub: string) {
    |s| >= |sub| && s != "" && Occurs(sub, s)
  }

  method ContainsFold(s: string, sub: string) returns (r: bool)
    ensures r == ContainsFoldSpec(s, sub)
  {
    if |s| < |sub| {
      return false;
    }
    r := Contains(sub, s);
  }

  /** The test holds exactly when the two texts are the same up to case, and not empty. */
  lemma ContainsFoldIsEquality(s: string, sub: string)
    ensures ContainsFoldSpec(s, sub) <==> s != "" && SameFold(s, sub)
  {
    if ContainsFoldSpec(s, sub) {
      var i :| 0 <= i <= |sub| && OccursAt(sub, s, i);
      assert sub[i..i + |s|] == sub;
    }
    if s != "" && SameFold(s, sub) {
      assert sub[0..0 + |s|] == sub;
      assert OccursAt(sub, s, 0);
    }
  }

  /** It answers the question its name asks exactly when the texts are equally long or the longer one does
      not contain the shorter. */
  lemma ContainsFoldIsRightExactlyWhen(s: string, sub: string)
    requires sub != ""
    ensures (ContainsFoldSpec(s, sub) <==> Occurs(s, sub)) <==> |s| == |sub| || !Occurs(s, sub)
  {
    ContainsFoldIsEquality(s, sub);
    if |s| == |sub| && Occurs(s, sub) {
      var i :| 0 <= i <= |s| && OccursAt(s, sub, i);
      assert s[i..i + |sub|] == s;
    }
    if ContainsFoldSpec(s, sub) {
      assert s[0..0 + |sub|] == s;
      assert OccursAt(s, sub, 0);
    }
  }

  const TOOLS: seq<string> := ["dirbuster", "gobuster", "nikto", "sqlmap", "zgrab", "nmap"]

  ghost function Confidence(userAgent: string): real {
    if exists i :: 0 <= i < |TOOLS| && ContainsFoldSpec(userAgent, TOOLS[i]) then 0.95 else 0.7
  }

  method ToolConfidence(userAgent: string) returns (c: real)
    ensures c == Confidence(userAgent)
  {
    for i := 0 to |TOOLS|
      invariant forall j | 0 <= j < i :: !ContainsFoldSpec(userAgent, TOOLS[j])
    {
      var hit := ContainsFold(userAgent, TOOLS[i]);
      if hit {
        return 0.95;
      }
    }
    return 0.7;
  }

  /** A user agent scores as a tool exactly when it is a tool's bare name, so one that also gives a
      version, as tools do, never does. */
  lemma OnlyBareNamesScore(userAgent: string)
    ensures Confidence(userAgent) == 0.95 <==> exists i :: 0 <= i < |TOOLS| && SameFold(userAgent, TOOLS[i])
  {
    forall i | 0 <= i < |TOOLS| ensures ContainsFoldSpec(userAgent, TOOLS[i]) <==> SameFold(userAgent, TOOLS[i]) {
      ContainsFoldIsEquality(userAgent, TOOLS[i]);
      ToolsAreNamed(i);
    }
  }

  lemma ToolsAreNamed(i: nat)
    requires i < |TOOLS|
    ensures |TOOLS[i]| > 0
  {
  }
}
