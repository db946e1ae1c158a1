/** The template fill-in dialog (src/components/clipboard/TemplateModal.tsx):
    the variables `{{name}}` of a template, the values typed for them, the
    filled-in text, and when copying is allowed. */
module Templates {
  import opened Wrappers
  import opened Text
  import opened Items
  import opened OrderedMaps

  // ---------------------------------------------------------------------
  // The pattern /\{\{([^\s][^}]*[^\s])\}\}/

  /** A match of the pattern starts at `i` and its captured name ends at `k`
      (inclusive): two opening braces, a non-space, any run without `}`, a
      non-space at `k`, then two closing braces. */
  predicate IsMatchAt(s: string, i: int, k: int) {
    && 0 <= i && i + 3 <= k && k + 2 < |s|
    && s[i] == '{' && s[i + 1] == '{'
    && !IsSpace(s[i + 2])
    && (forall m :: i + 3 <= m < k ==> s[m] != '}')
    && !IsSpace(s[k])
    && s[k + 1] == '}' && s[k + 2] == '}'
  }

  /** The first `}` at or after `p`, or the end. */
  function NextClose(s: string, p: nat): (j: nat)
    requires p <= |s|
    ensures p <= j <= |s|
    decreases |s| - p
  {
    if p == |s| || s[p] == '}' then p else NextClose(s, p + 1)
  }

  lemma {:induction false} NextCloseSpec(s: string, p: nat)
    requires p <= |s|
    ensures var j := NextClose(s, p);
      && (j < |s| ==> s[j] == '}')
      && forall m :: p <= m < j ==> s[m] != '}'
    decreases |s| - p
  {
    if p < |s| && s[p] != '}' {
      NextCloseSpec(s, p + 1);
    }
  }

  /** The backtracking matcher at one position: `[^}]*` first takes the
      whole run up to the next `}` (so the name may end with that `}` when
      three closing braces follow), then gives back one character. */
  function MatchAt(s: string, i: nat): (r: Option<nat>)
    requires i <= |s|
    ensures r.Some? ==> i + 3 <= r.value && r.value + 2 < |s|
  {
    if i + 3 > |s| || s[i] != '{' || s[i + 1] != '{' || IsSpace(s[i + 2]) then None
    else
      var j := NextClose(s, i + 3);
      if j + 2 < |s| && s[j + 1] == '}' && s[j + 2] == '}' then Some(j)
      else if i + 4 <= j && j + 1 < |s| && !IsSpace(s[j - 1]) && s[j + 1] == '}' then Some(j - 1)
      else None
  }

  /** Whatever the matcher returns is a match of the pattern. */
  lemma MatchAtSound(s: string, i: nat)
    requires i <= |s|
    ensures MatchAt(s, i).Some? ==> IsMatchAt(s, i, MatchAt(s, i).value)
  {
    if i + 3 <= |s| {
      NextCloseSpec(s, i + 3);
    }
  }

  /** The matcher finds a match wherever the pattern matches, and the
      longest one: the greedy run gives back only what it must. */
  lemma MatchAtLongest(s: string, i: nat, k: int)
    requires i <= |s| && IsMatchAt(s, i, k)
    ensures MatchAt(s, i).Some? && k <= MatchAt(s, i).value
  {
    var j := NextClose(s, i + 3);
    NextCloseSpec(s, i + 3);
    if k < j {
      assert s[k + 1] == '}';
      assert k + 1 == j;
    }
  }

  /** `regex.exec` from `lastIndex = p`: the first position at or after `p`
      where the pattern matches. */
  function FirstMatch(s: string, p: nat): (r: Option<(nat, nat)>)
    requires p <= |s|
    ensures r.Some? ==> p <= r.value.0 <= |s| && MatchAt(s, r.value.0) == Some(r.value.1)
    decreases |s| - p
  {
    if MatchAt(s, p).Some? then Some((p, MatchAt(s, p).value))
    else if p == |s| then None
    else FirstMatch(s, p + 1)
  }

  /** No match is skipped: the pattern matches nowhere between `p` and the
      match found, and nowhere at all when none is found. */
  lemma {:induction false} FirstMatchIsFirst(s: string, p: nat, i: nat)
    requires p <= i <= |s|
    requires FirstMatch(s, p).None? || i < FirstMatch(s, p).value.0
    ensures MatchAt(s, i).None?
    decreases i - p
  {
    if i > p {
      FirstMatchIsFirst(s, p + 1, i);
    }
  }

  /** The captured names of every match, left to right; each search resumes
      after the previous match, so matches never overlap. */
  function MatchedNames(s: string, p: nat): seq<string>
    requires p <= |s|
    decreases |s| - p
  {
    var m := FirstMatch(s, p);
    if m.None? then []
    else
      assert MatchAt(s, m.value.0) == Some(m.value.1);
      [s[m.value.0 + 2..m.value.1 + 1]] + MatchedNames(s, m.value.1 + 3)
  }

  /** What a captured name looks like. */
  predicate WellFormedName(v: string) {
    && |v| >= 2
    && !IsSpace(v[0]) && !IsSpace(v[|v| - 1])
    && forall m :: 1 <= m < |v| - 1 ==> v[m] != '}'
  }

  /** The match found is a match of the pattern at or after `p`. */
  lemma FirstMatchFacts(s: string, p: nat)
    requires p <= |s| && FirstMatch(s, p).Some?
    ensures p <= FirstMatch(s, p).value.0
    ensures IsMatchAt(s, FirstMatch(s, p).value.0, FirstMatch(s, p).value.1)
  {
    var i := FirstMatch(s, p).value.0;
    assert MatchAt(s, i) == Some(FirstMatch(s, p).value.1);
    MatchAtSound(s, i);
  }

  /** One step of the scan: the next match's name, then the rest. */
  lemma MatchedNamesStep(s: string, p: nat)
    requires p <= |s|
    ensures FirstMatch(s, p).None? ==> MatchedNames(s, p) == []
    ensures FirstMatch(s, p).Some? ==>
      var (i, k) := FirstMatch(s, p).value;
      && p <= i && i + 3 <= k && k + 3 <= |s|
      && MatchedNames(s, p) == [s[i + 2..k + 1]] + MatchedNames(s, k + 3)
  {
    if FirstMatch(s, p).Some? {
      MatchedNamesAt(s, p, FirstMatch(s, p).value.0, FirstMatch(s, p).value.1);
    }
  }

  /** What a match captures is a well-formed name. */
  lemma CaptureWellFormed(s: string, i: nat, k: nat)
    requires IsMatchAt(s, i, k)
    ensures WellFormedName(s[i + 2..k + 1])
  {
    var v := s[i + 2..k + 1];
    assert forall m :: 1 <= m < |v| - 1 ==> v[m] == s[i + 2 + m];
  }

  /** Where the match found lies. */
  lemma FirstMatchBounds(s: string, p: nat, i: nat, k: nat)
    requires p <= |s| && FirstMatch(s, p) == Some((i, k))
    ensures p <= i && i + 3 <= k && k + 3 <= |s|
  {
    assert MatchAt(s, i) == Some(k);
  }

  /** The step of the scan for a match already found. */
  lemma MatchedNamesAt(s: string, p: nat, i: nat, k: nat)
    requires p <= |s| && FirstMatch(s, p) == Some((i, k))
    ensures p <= i && i + 3 <= k && k + 3 <= |s|
    ensures MatchedNames(s, p) == [s[i + 2..k + 1]] + MatchedNames(s, k + 3)
  {
    FirstMatchBounds(s, p, i, k);
  }

  lemma {:induction false} MatchedNamesWellFormed(s: string, p: nat)
    requires p <= |s|
    ensures forall v :: v in MatchedNames(s, p) ==> WellFormedName(v)
    decreases |s| - p
  {
    if FirstMatch(s, p).Some? {
      var i := FirstMatch(s, p).value.0;
      var k := FirstMatch(s, p).value.1;
      MatchedNamesAt(s, p, i, k);
      FirstMatchFacts(s, p);
      CaptureWellFormed(s, i, k);
      MatchedNamesWellFormed(s, k + 3);
      WellFormedCons(s[i + 2..k + 1], MatchedNames(s, k + 3));
    } else {
      MatchedNamesStep(s, p);
    }
  }

  lemma WellFormedCons(v: string, rest: seq<string>)
    requires WellFormedName(v) && forall x :: x in rest ==> WellFormedName(x)
    ensures forall x :: x in [v] + rest ==> WellFormedName(x)
  {
  }

  /** One `regex.exec` from `pos`: the name it captures and where the next
      search starts. */
  method ExecFrom(content: string, pos: nat) returns (name: string, next: nat)
    requires pos <= |content| && FirstMatch(content, pos).Some?
    ensures pos < next <= |content|
    ensures MatchedNames(content, pos) == [name] + MatchedNames(content, next)
  {
    var m := FirstMatch(content, pos);
    var i := m.value.0;
    var k := m.value.1;
    MatchedNamesAt(content, pos, i, k);
    name := content[i + 2..k + 1];
    next := k + 3;
  }

  /** `extractTemplateVariables`: the loop over `regex.exec`, collecting the
      names in a `Set`. */
  method ExtractTemplateVariables(content: string) returns (vars: seq<string>)
    ensures vars == Dedup(MatchedNames(content, 0))
  {
    vars := [];
    var pos := 0;
    AddAllDistinctDedup([], MatchedNames(content, 0));
    assert [] + MatchedNames(content, 0) == MatchedNames(content, 0);
    while FirstMatch(content, pos).Some?
      invariant pos <= |content|
      invariant AddAllDistinct(vars, MatchedNames(content, pos)) == Dedup(MatchedNames(content, 0))
      decreases |content| - pos
    {
      var name, next := ExecFrom(content, pos);
      assert ([name] + MatchedNames(content, next))[1..] == MatchedNames(content, next);
      vars := AddDistinct(vars, name);
      pos := next;
    }
    MatchedNamesStep(content, pos);
  }

  /** The variables are distinct, are exactly the names matched, and each
      is at least two characters long, starts and ends with a non-space and
      has no `}` inside. */
  lemma VariablesSpec(content: string)
    ensures var vars := Dedup(MatchedNames(content, 0));
      && Distinct(vars)
      && (forall v :: v in vars <==> v in MatchedNames(content, 0))
      && (forall v :: v in vars ==> WellFormedName(v))
  {
    DedupSpec(MatchedNames(content, 0));
    MatchedNamesWellFormed(content, 0);
  }

  /** Single-character names and names with inner spaces at the ends are
      not variables. */
  lemma VariablesExamples()
    ensures MatchedNames("{{x}}", 0) == []
    ensures MatchedNames("{{ xy }}", 0) == []
    ensures MatchedNames("{{ab}}", 0) == ["ab"]
  {
    assert MatchAt("{{x}}", 0).None?;
    assert MatchAt("{{ xy }}", 0).None?;
    assert MatchAt("{{ab}}", 0) == Some(3);
    assert FirstMatch("{{ab}}", 0) == Some((0, 3));
    assert MatchAt("{{ab}}", 6).None?;
    assert MatchedNames("{{ab}}", 6) == [];
    assert "{{ab}}"[2..4] == "ab";
  }

  // ---------------------------------------------------------------------
  // Filling in

  /** The pattern `{{key}}` built for one key. */
  function Placeholder(key: string): (r: string)
    ensures |r| == |key| + 4
  {
    "{{" + key + "}}"
  }

  /** `replaceTemplateVariables` as a fold over the value map in key order:
      each key's placeholder is replaced everywhere by its value, in the
      text the earlier keys left. */
  function Fill(content: string, values: Entries): string
    decreases |values|
  {
    if values == [] then content
    else Fill(ReplaceAll(content, Placeholder(values[0].0), values[0].1), values[1..])
  }

  /** `replaceTemplateVariables`: the loop over `Object.keys(values)`. */
  method ReplaceTemplateVariables(content: string, values: Entries) returns (result: string)
    ensures result == Fill(content, values)
  {
    result := content;
    var n := 0;
    while n < |values|
      invariant 0 <= n <= |values|
      invariant Fill(result, values[n..]) == Fill(content, values)
    {
      assert values[n..][1..] == values[n + 1..];
      result := ReplaceAll(result, Placeholder(values[n].0), values[n].1);
      n := n + 1;
    }
  }

  /** A text in which no key's placeholder occurs is copied as it is. */
  lemma {:induction false} FillUntouched(content: string, values: Entries)
    requires forall e :: e in values ==> !Includes(content, Placeholder(e.0))
    ensures Fill(content, values) == content
    decreases |values|
  {
    if values != [] {
      ReplaceAllAbsent(content, Placeholder(values[0].0), values[0].1);
      FillUntouched(content, values[1..]);
    }
  }

  /** Filling one key replaces its placeholder and leaves the text around
      it, including placeholders of keys without a value, as it was. */
  lemma FillOne(x: string, key: string, y: string, value: string)
    requires '{' !in x
    requires !Includes(y, Placeholder(key))
    ensures Fill(x + Placeholder(key) + y, [(key, value)]) == x + value + y
  {
    var pat := Placeholder(key);
    forall i | 0 <= i < |x| ensures !OccursAt(x + pat + y, i, pat) {
      assert (x + pat + y)[i] == x[i];
    }
    ReplaceAllFirst(x, pat, y, value);
    ReplaceAllAbsent(y, pat, value);
  }

  // ---------------------------------------------------------------------
  // The dialog

  /** The value map when the dialog opens: every variable, in order, mapped
      to the empty string. */
  method InitialValues(vars: seq<string>) returns (values: Entries)
    requires Distinct(vars)
    ensures Keys(values) == vars
    ensures forall v :: v in vars ==> Lookup(values, v) == Some("")
  {
    values := [];
    var n := 0;
    while n < |vars|
      invariant 0 <= n <= |vars|
      invariant Keys(values) == vars[..n]
      invariant forall i :: 0 <= i < |values| ==> values[i].1 == ""
    {
      assert forall i :: 0 <= i < |values| ==> values[i].0 != vars[n];
      values := Assign(values, vars[n], "");
      n := n + 1;
    }
    assert vars[..n] == vars;
    forall v | v in vars ensures Lookup(values, v) == Some("") {
      var i := IndexOfKey(values, v);
    }
  }

  /** `allFieldsFilled`: every variable has a value that is not blank. */
  predicate AllFieldsFilled(vars: seq<string>, values: Entries) {
    forall v :: v in vars ==> Lookup(values, v).Some? && !IsBlank(Lookup(values, v).value)
  }

  /** The copy button's guard. */
  predicate CopyEnabled(vars: seq<string>, values: Entries, isCopying: bool) {
    AllFieldsFilled(vars, values) && |vars| > 0 && !isCopying
  }

  /** Right after opening, copying is disabled; once every variable holds a
      non-blank value, it is enabled (when no copy is under way). */
  lemma CopyGuard(vars: seq<string>, initial: Entries, filled: Entries)
    requires vars != []
    requires forall v :: v in vars ==> Lookup(initial, v) == Some("")
    requires forall v :: v in vars ==> Lookup(filled, v).Some? && Trim(Lookup(filled, v).value) != []
    ensures !CopyEnabled(vars, initial, false)
    ensures CopyEnabled(vars, filled, false)
  {
    assert vars[0] in vars;
  }
}
