/**
  What the declarations' patterns match, character by character, and which names an entrypoint
  holds in double braces.
 */
module Patterns {
  import opened Declarations

  // ---- names; a pattern's end also matches before one final newline ----

  predicate AtEnd(s: string, i: nat) {
    i == |s| - 1 && s[i] == '\n'
  }

  ghost predicate OfName(s: string, from: nat, to: nat) {
    forall i :: from <= i < to <= |s| ==>
      || 'a' <= s[i] <= 'z' || '0' <= s[i] <= '9' || s[i] == '_'
      || (0 < i && AtEnd(s, i))
  }

  ghost predicate OfPrincipal(s: string, from: nat) {
    forall i :: from <= i < |s| ==>
      || 'a' <= s[i] <= 'z' || 'A' <= s[i] <= 'Z' || '0' <= s[i] <= '9'
      || s[i] == '_' || s[i] == '.' || s[i] == '@' || s[i] == '+' || s[i] == '-'
      || (from < i && AtEnd(s, i))
  }

  lemma NamesExactly(s: string)
    ensures NameOk(s) <==> s != "" && OfName(s, 0, |s|)
    ensures NamespaceOk(s) <==> s != "" && 'a' <= s[0] <= 'z' && OfName(s, 0, |s|)
  {
    var t := Chopped(s);
    if s != "" && OfName(s, 0, |s|) {
      assert t == s || (t == s[..|s| - 1] && |s| > 1);
      assert All(t, IsNameChar);
    }
    if t != "" && All(t, IsNameChar) {
      assert OfName(s, 0, |s|);
    }
  }

  // the colon that splits a namespaced principal
  ghost predicate SplitsAt(s: string, k: nat) {
    && 0 < k < |s| - 1 && s[k] == ':' && 'a' <= s[0] <= 'z'
    && OfName(s, 0, k) && OfPrincipal(s, k + 1)
  }

  lemma PrincipalsExactly(s: string)
    ensures NamespacedOk(s) <==> exists k: nat :: SplitsAt(s, k)
    ensures PrincipalOk(s) <==> s in {"root", "root\n", "anonymous", "anonymous\n"} || exists k: nat :: SplitsAt(s, k)
  {
    var t := Chopped(s);
    if NamespacedOk(s) {
      var i :| 0 < i < |t| - 1 && t[i] == ':' && IsLower(t[0]) && All(t[..i], IsNameChar) && All(t[i + 1..], IsPrincipalChar);
      SplitFound(s, i);
    }
    if k: nat :| SplitsAt(s, k) {
      SplitTaken(s, k);
    }
    assert Chopped(s) == "root" <==> s == "root" || s == "root\n" by {
      assert s == t || s == t + "\n";
    }
    assert Chopped(s) == "anonymous" <==> s == "anonymous" || s == "anonymous\n" by {
      assert s == t || s == t + "\n";
    }
  }

  lemma SplitFound(s: string, i: nat)
    requires 0 < i < |Chopped(s)| - 1 && Chopped(s)[i] == ':' && IsLower(Chopped(s)[0])
    requires All(Chopped(s)[..i], IsNameChar) && All(Chopped(s)[i + 1..], IsPrincipalChar)
    ensures SplitsAt(s, i)
  {
    var t := Chopped(s);
    forall j | 0 <= j < i ensures IsNameChar(s[j]) {
      assert s[j] == t[..i][j];
    }
    forall j | i + 1 <= j < |t| ensures IsPrincipalChar(s[j]) {
      assert s[j] == t[i + 1..][j - i - 1];
    }
  }

  lemma SplitTaken(s: string, k: nat)
    requires SplitsAt(s, k)
    ensures NamespacedOk(s)
  {
    var t := Chopped(s);
    assert s[k + 1] != '\n';
    assert k < |t| - 1;
    assert t[k] == ':' && IsLower(t[0]);
    assert All(t[..k], IsNameChar);
    assert All(t[k + 1..], IsPrincipalChar);
  }

  // ---- placeholders ----

  predicate IsWord(p: string) {
    && p != ""
    && forall i :: 0 <= i < |p| ==> 'a' <= p[i] <= 'z' || 'A' <= p[i] <= 'Z' || '0' <= p[i] <= '9' || p[i] == '_'
  }

  // {{p}} stands at i
  predicate StandsAt(s: string, p: string, i: nat) {
    i + |p| + 4 <= |s| && s[i..i + |p| + 4] == "{{" + p + "}}"
  }

  lemma {:induction false} WordEndIs(s: string, i: nat)
    requires i <= |s|
    ensures forall j :: i <= j < WordEnd(s, i) ==> IsWordChar(s[j])
    ensures WordEnd(s, i) == |s| || !IsWordChar(s[WordEnd(s, i)])
    decreases |s| - i
  {
    if i < |s| && IsWordChar(s[i]) {
      WordEndIs(s, i + 1);
    }
  }

  lemma StandsBy(s: string, p: string, i: nat)
    requires StandsAt(s, p, i)
    ensures s[i] == '{' && s[i + 1] == '{' && s[i + 2..i + 2 + |p|] == p && s[i + 2 + |p|] == '}' && s[i + 3 + |p|] == '}'
  {
    var m := "{{" + p + "}}";
    assert forall j :: 0 <= j < |m| ==> s[i + j] == s[i..i + |m|][j] == m[j];
    assert s[i + 2..i + 2 + |p|] == m[2..2 + |p|] == p;
    assert m[2 + |p|] == '}' && m[3 + |p|] == '}';
  }

  // a word that stands at i is what the scan reads there
  lemma ReadAt(s: string, p: string, i: nat)
    requires StandsAt(s, p, i) && IsWord(p)
    ensures WordEnd(s, i + 2) == i + 2 + |p|
  {
    StandsBy(s, p, i);
    WordEndIs(s, i + 2);
    forall j | i + 2 <= j < i + 2 + |p| ensures IsWordChar(s[j]) {
      assert s[j] == p[j - i - 2];
    }
  }

  // what the scan takes stands there
  lemma TakenAt(s: string, i: nat)
    requires i + 2 <= |s| && s[i] == '{' && s[i + 1] == '{'
    requires
      var e := WordEnd(s, i + 2);
      e > i + 2 && e + 2 <= |s| && s[e] == '}' && s[e + 1] == '}'
    ensures
      var p := s[i + 2..WordEnd(s, i + 2)];
      IsWord(p) && StandsAt(s, p, i)
  {
    WordEndIs(s, i + 2);
  }

  /** The scan finds exactly the words that stand in double braces, wherever they stand. */
  lemma PlaceholdersExactly(s: string, p: string)
    ensures p in Placeholders(s, 0) <==> IsWord(p) && exists i: nat :: StandsAt(s, p, i)
  {
    assert StandsFrom(s, p, 0) <==> exists i: nat :: StandsAt(s, p, i);
    ScanExact(s, p, 0);
  }

  predicate TakesAt(s: string, i: nat)
    requires i + 2 <= |s|
  {
    var e := WordEnd(s, i + 2);
    s[i] == '{' && s[i + 1] == '{' && e > i + 2 && e + 2 <= |s| && s[e] == '}' && s[e + 1] == '}'
  }

  lemma TakenIsRead(s: string, p: string, i: nat)
    requires i + 2 <= |s|
    ensures IsWord(p) && StandsAt(s, p, i) <==> TakesAt(s, i) && p == s[i + 2..WordEnd(s, i + 2)]
  {
    if IsWord(p) && StandsAt(s, p, i) {
      ReadAt(s, p, i);
      StandsBy(s, p, i);
    }
    if TakesAt(s, i) {
      TakenAt(s, i);
    }
  }

  // nothing stands across a taken word
  lemma NoneWithin(s: string, p: string, i: nat, k: nat)
    requires i + 2 <= |s| && TakesAt(s, i) && i < k < WordEnd(s, i + 2) + 2
    ensures !StandsAt(s, p, k)
  {
    WordEndIs(s, i + 2);
    assert IsWordChar(s[i + 2]);
    if StandsAt(s, p, k) {
      StandsBy(s, p, k);
    }
  }

  ghost predicate StandsFrom(s: string, p: string, i: nat) {
    exists k: nat :: i <= k && StandsAt(s, p, k)
  }

  lemma {:induction false} ScanExact(s: string, p: string, i: nat)
    requires i <= |s|
    ensures p in Placeholders(s, i) <==> IsWord(p) && StandsFrom(s, p, i)
    decreases |s| - i
  {
    if i + 2 <= |s| {
      TakenIsRead(s, p, i);
      if TakesAt(s, i) {
        var e := WordEnd(s, i + 2);
        ScanExact(s, p, e + 2);
        forall k: nat | i < k < e + 2 ensures !StandsAt(s, p, k) {
          NoneWithin(s, p, i, k);
        }
        assert Placeholders(s, i) == [s[i + 2..e]] + Placeholders(s, e + 2);
        Skips(s, p, i, e + 2);
      } else {
        ScanExact(s, p, i + 1);
        assert Placeholders(s, i) == Placeholders(s, i + 1);
        Skips(s, p, i, i + 1);
      }
    }
  }

  lemma Skips(s: string, p: string, i: nat, e: nat)
    requires i < e && forall k: nat :: i < k < e ==> !StandsAt(s, p, k)
    ensures StandsFrom(s, p, i) <==> StandsAt(s, p, i) || StandsFrom(s, p, e)
  {
  }
}
