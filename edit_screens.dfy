/** The two edit screens (src/screens/clipboard/ClipboardEditScreen.tsx and
    src/screens/clipboard/TemplateEditScreen.tsx): the placeholder
    normaliser a template save applies, what a save hands to the context,
    the category picker's selection, create and delete handlers, and the
    template screen's "don't show again" dialog. The category list itself
    is in the Categories module. */
module EditScreens {
  import opened Wrappers
  import opened Text
  import opened Items
  import opened KeyValueStore
  import opened Templates
  import opened Categories

  // ---------------------------------------------------------------------
  // The normaliser `/\{\{\s*(.*?)\s*\}\}/g`

  /** The end of the run of white space that starts at `p`. */
  function SkipSpaces(s: string, p: nat): (q: nat)
    requires p <= |s|
    ensures p <= q <= |s|
    decreases |s| - p
  {
    if p < |s| && IsSpace(s[p]) then SkipSpaces(s, p + 1) else p
  }

  /** `\s*` is greedy: it takes the whole run and stops before a character
      that is not white space. */
  lemma {:induction false} SkipSpacesSpec(s: string, p: nat)
    requires p <= |s|
    ensures forall k :: p <= k < SkipSpaces(s, p) ==> IsSpace(s[k])
    ensures SkipSpaces(s, p) < |s| ==> !IsSpace(s[SkipSpaces(s, p)])
    decreases |s| - p
  {
    if p < |s| && IsSpace(s[p]) {
      SkipSpacesSpec(s, p + 1);
    }
  }

  /** `\s*\}\}` matches at `e`. Backing off the greedy run never helps,
      since `}` is not white space. */
  predicate ClosesAt(s: string, e: nat)
    requires e <= |s|
  {
    var q := SkipSpaces(s, e);
    q + 2 <= |s| && s[q] == '}' && s[q + 1] == '}'
  }

  /** The lazy group `(.*?)` that starts at `a` tries each end `e` in turn,
      shortest first; `.` does not cross a line terminator. */
  function LazyEnd(s: string, e: nat): (r: Option<nat>)
    requires e <= |s|
    ensures r.Some? ==> e <= r.value <= |s| && ClosesAt(s, r.value)
    decreases |s| - e
  {
    if ClosesAt(s, e) then Some(e)
    else if e < |s| && !IsLineTerminator(s[e]) then LazyEnd(s, e + 1)
    else None
  }

  /** The lazy group ends at the first place where the closing braces
      follow, and holds no line terminator. */
  lemma {:induction false} LazyEndSpec(s: string, e: nat)
    requires e <= |s| && LazyEnd(s, e).Some?
    ensures forall k :: e <= k < LazyEnd(s, e).value ==> !IsLineTerminator(s[k]) && !ClosesAt(s, k)
    decreases |s| - e
  {
    if !ClosesAt(s, e) {
      LazyEndSpec(s, e + 1);
    }
  }

  /** A match of the normaliser at `i`: `(a, e, j)` where the group is
      `s[a..e]` and the match ends before `j`. The leading `\s*` takes the
      whole run after `{{`: giving some of it back only lets the group
      start on white space, from where the same ends are tried. */
  function PaddedMatchAt(s: string, i: nat): (r: Option<(nat, nat, nat)>)
    ensures r.Some? ==> i + 2 <= r.value.0 <= r.value.1 && r.value.1 + 2 <= r.value.2 <= |s|
  {
    if i + 2 <= |s| && s[i] == '{' && s[i + 1] == '{' then
      var a := SkipSpaces(s, i + 2);
      match LazyEnd(s, a)
      case None => None
      case Some(e) => Some((a, e, SkipSpaces(s, e) + 2))
    else None
  }

  /** `content.replace(/\{\{\s*(.*?)\s*\}\}/g, ...)` from `p` on: each match
      becomes `{{` + the trimmed group + `}}`; other characters are copied. */
  function NormalizeFrom(s: string, p: nat): string
    requires p <= |s|
    decreases |s| - p
  {
    if p == |s| then []
    else match PaddedMatchAt(s, p)
      case Some((a, e, j)) => Placeholder(Trim(s[a..e])) + NormalizeFrom(s, j)
      case None => [s[p]] + NormalizeFrom(s, p + 1)
  }

  function Normalize(s: string): string {
    NormalizeFrom(s, 0)
  }

  /** The characters of `s` that are not white space, in order. */
  function NonSpace(s: string): (r: string)
    ensures |r| <= |s|
  {
    if s == [] then []
    else (if IsSpace(s[0]) then [] else [s[0]]) + NonSpace(s[1..])
  }

  lemma {:induction false} NonSpaceAppend(x: string, y: string)
    ensures NonSpace(x + y) == NonSpace(x) + NonSpace(y)
  {
    if x != [] {
      assert (x + y)[1..] == x[1..] + y;
      NonSpaceAppend(x[1..], y);
    } else {
      assert x + y == y;
    }
  }

  lemma {:induction false} NonSpaceOfSpaces(x: string)
    requires forall k :: 0 <= k < |x| ==> IsSpace(x[k])
    ensures NonSpace(x) == []
  {
    if x != [] {
      NonSpaceOfSpaces(x[1..]);
    }
  }

  /** Text between two runs of white space is all the text there is. */
  lemma NonSpaceSandwich(pre: string, t: string, post: string)
    requires forall k :: 0 <= k < |pre| ==> IsSpace(pre[k])
    requires forall k :: 0 <= k < |post| ==> IsSpace(post[k])
    ensures NonSpace(pre + t + post) == NonSpace(t)
  {
    calc {
      NonSpace(pre + t + post);
    == { NonSpaceAppend(pre + t, post); }
      NonSpace(pre + t) + NonSpace(post);
    == { NonSpaceAppend(pre, t); }
      NonSpace(pre) + NonSpace(t) + NonSpace(post);
    == { NonSpaceOfSpaces(pre); NonSpaceOfSpaces(post); }
      NonSpace(t);
    }
  }

  /** An infix between runs of white space holds all the other text. */
  lemma NonSpaceInfix(x: string, i: int, t: string)
    requires InfixAmidSpace(x, i, t)
    ensures NonSpace(t) == NonSpace(x)
  {
    var pre, post := x[..i], x[i + |t|..];
    assert x == pre + t + post;
    forall k | 0 <= k < |post| ensures IsSpace(post[k]) {
      assert post[k] == x[i + |t| + k];
    }
    NonSpaceSandwich(pre, t, post);
  }

  /** Trimming drops white space only. */
  lemma NonSpaceTrim(x: string)
    ensures NonSpace(Trim(x)) == NonSpace(x)
  {
    TrimSpec(x);
    var i :| InfixAmidSpace(x, i, Trim(x));
    NonSpaceInfix(x, i, Trim(x));
  }

  /** One match is `{{`, white space, the group, white space, `}}`. */
  lemma MatchShape(s: string, i: nat)
    requires PaddedMatchAt(s, i).Some?
    ensures var (a, e, j) := PaddedMatchAt(s, i).value;
      && s[i..j] == "{{" + s[i + 2..a] + s[a..e] + s[e..j - 2] + "}}"
      && (forall k :: i + 2 <= k < a ==> IsSpace(s[k]))
      && (forall k :: e <= k < j - 2 ==> IsSpace(s[k]))
  {
    var (a, e, j) := PaddedMatchAt(s, i).value;
    SkipSpacesSpec(s, i + 2);
    SkipSpacesSpec(s, e);
    SliceInFive(s, i, i + 2, a, e, j - 2, j);
    assert s[i..i + 2] == "{{" && s[j - 2..j] == "}}";
  }

  lemma SliceInFive(s: string, i0: nat, i1: nat, i2: nat, i3: nat, i4: nat, i5: nat)
    requires i0 <= i1 <= i2 <= i3 <= i4 <= i5 <= |s|
    ensures s[i0..i5] == s[i0..i1] + s[i1..i2] + s[i2..i3] + s[i3..i4] + s[i4..i5]
  {
    assert s[i3..i5] == s[i3..i4] + s[i4..i5];
    assert s[i2..i5] == s[i2..i3] + s[i3..i5];
    assert s[i1..i5] == s[i1..i2] + s[i2..i5];
    assert s[i0..i5] == s[i0..i1] + s[i1..i5];
  }

  /** Braces around a group padded with white space hold the text of the
      group alone. */
  lemma NonSpacePadded(lead: string, g: string, trail: string)
    requires forall k :: 0 <= k < |lead| ==> IsSpace(lead[k])
    requires forall k :: 0 <= k < |trail| ==> IsSpace(trail[k])
    ensures NonSpace("{{" + lead + g + trail + "}}") == "{{" + NonSpace(g) + "}}"
  {
    var open, close := "{{", "}}";
    calc {
      NonSpace(open + lead + g + trail + close);
    == { assert open + lead + g + trail + close == open + (lead + g + trail) + close; }
      NonSpace(open + (lead + g + trail) + close);
    == { NonSpaceAppend(open + (lead + g + trail), close); NonSpaceAppend(open, lead + g + trail); }
      NonSpace(open) + NonSpace(lead + g + trail) + NonSpace(close);
    == { NonSpaceSandwich(lead, g, trail); BracesKept(); }
      open + NonSpace(g) + close;
    }
  }

  lemma BracesKept()
    ensures NonSpace("{{") == "{{" && NonSpace("}}") == "}}"
  {
    assert "{{"[1..] == "{";
    assert "}}"[1..] == "}";
  }

  lemma NonSpacePlaceholder(g: string)
    ensures NonSpace(Placeholder(g)) == "{{" + NonSpace(g) + "}}"
  {
    NonSpacePadded([], g, []);
    assert "{{" + [] + g + [] + "}}" == Placeholder(g);
  }

  /** A match and its replacement hold the same text apart from white
      space. */
  lemma MatchKeepsText(s: string, i: nat)
    requires PaddedMatchAt(s, i).Some?
    ensures var (a, e, j) := PaddedMatchAt(s, i).value;
      NonSpace(Placeholder(Trim(s[a..e]))) == NonSpace(s[i..j])
  {
    var (a, e, j) := PaddedMatchAt(s, i).value;
    MatchShape(s, i);
    NonSpacePadded(s[i + 2..a], s[a..e], s[e..j - 2]);
    NonSpaceTrim(s[a..e]);
    NonSpacePlaceholder(Trim(s[a..e]));
  }

  /** Normalising only removes white space: the rest of the text, and so
      every placeholder name, is kept in order. */
  lemma {:induction false} NormalizeKeepsText(s: string, p: nat)
    requires p <= |s|
    ensures NonSpace(NormalizeFrom(s, p)) == NonSpace(s[p..])
    decreases |s| - p
  {
    if p < |s| {
      var m := PaddedMatchAt(s, p);
      var next := if m.Some? then m.value.2 else p + 1;
      calc {
        NonSpace(NormalizeFrom(s, p));
      == { StepKeepsText(s, p); }
        NonSpace(s[p..next]) + NonSpace(NormalizeFrom(s, next));
      == { NormalizeKeepsText(s, next); }
        NonSpace(s[p..next]) + NonSpace(s[next..]);
      == { NonSpaceAppend(s[p..next], s[next..]); assert s[p..] == s[p..next] + s[next..]; }
        NonSpace(s[p..]);
      }
    }
  }

  /** One step of the replacement, a match or a copied character, keeps
      the text of what it consumed. */
  lemma StepKeepsText(s: string, p: nat)
    requires p < |s|
    ensures var m := PaddedMatchAt(s, p);
      var next := if m.Some? then m.value.2 else p + 1;
      NonSpace(NormalizeFrom(s, p)) == NonSpace(s[p..next]) + NonSpace(NormalizeFrom(s, next))
  {
    match PaddedMatchAt(s, p)
    case Some((a, e, j)) =>
      NonSpaceAppend(Placeholder(Trim(s[a..e])), NormalizeFrom(s, j));
      MatchKeepsText(s, p);
    case None =>
      NonSpaceAppend([s[p]], NormalizeFrom(s, p + 1));
      assert s[p..p + 1] == [s[p]];
  }

  /** Normalising never makes the text longer. */
  lemma {:induction false} NormalizeShrinks(s: string, p: nat)
    requires p <= |s|
    ensures |NormalizeFrom(s, p)| <= |s| - p
    decreases |s| - p
  {
    if p < |s| {
      var m := PaddedMatchAt(s, p);
      if m.Some? {
        var j := m.value.2;
        NormalizeShrinks(s, j);
        MatchShrinks(s, p);
      } else {
        NormalizeShrinks(s, p + 1);
      }
    }
  }

  /** A replacement is no longer than the match it replaces. */
  lemma MatchShrinks(s: string, p: nat)
    requires p < |s| && PaddedMatchAt(s, p).Some?
    ensures var (a, e, j) := PaddedMatchAt(s, p).value;
      |NormalizeFrom(s, p)| <= j - p + |NormalizeFrom(s, j)|
  {
    var (a, e, j) := PaddedMatchAt(s, p).value;
    assert |Trim(s[a..e])| <= e - a;
  }

  /** `s` has no `{{` from `p` on. */
  predicate NoOpening(s: string, p: nat) {
    forall k :: p <= k && k + 1 < |s| ==> !(s[k] == '{' && s[k + 1] == '{')
  }

  /** Text without `{{` is left exactly as it is. */
  lemma {:induction false} NormalizeWithoutPlaceholders(s: string, p: nat)
    requires p <= |s| && NoOpening(s, p)
    ensures NormalizeFrom(s, p) == s[p..]
    decreases |s| - p
  {
    if p < |s| {
      assert PaddedMatchAt(s, p).None?;
      NormalizeWithoutPlaceholders(s, p + 1);
      assert s[p..] == [s[p]] + s[p + 1..];
    }
  }

  /** A name that starts and ends with a non-space and holds no `}` and no
      line terminator. */
  predicate TightName(v: string) {
    && v != [] && !IsSpace(v[0]) && !IsSpace(v[|v| - 1])
    && forall k :: 0 <= k < |v| ==> v[k] != '}' && !IsLineTerminator(v[k])
  }

  /** Inside a tight name, the closing braces never follow. */
  lemma NoCloseInside(s: string, a: nat, v: string, e: nat)
    requires a + |v| <= |s| && s[a..a + |v|] == v && TightName(v)
    requires a <= e < a + |v|
    ensures !ClosesAt(s, e) && !IsLineTerminator(s[e])
  {
    var last := a + |v| - 1;
    assert s[last] == v[|v| - 1];
    SkipSpacesStops(s, e, last);
    var q := SkipSpaces(s, e);
    assert s[q] == v[q - a];
    assert s[e] == v[e - a];
  }

  /** The run of white space stops at the first character that is not
      white space. */
  lemma {:induction false} SkipSpacesStops(s: string, p: nat, q: nat)
    requires p <= q < |s| && !IsSpace(s[q])
    ensures SkipSpaces(s, p) <= q
    decreases q - p
  {
    if p < q {
      SkipSpacesStops(s, p + 1, q);
    }
  }

  lemma {:induction false} LazyEndOverName(s: string, a: nat, v: string, e: nat)
    requires a + |v| <= |s| && s[a..a + |v|] == v && TightName(v)
    requires a <= e <= a + |v|
    requires ClosesAt(s, a + |v|)
    ensures LazyEnd(s, e) == Some(a + |v|)
    decreases a + |v| - e
  {
    if e < a + |v| {
      NoCloseInside(s, a, v, e);
      LazyEndOverName(s, a, v, e + 1);
    }
  }

  /** `{{ name }}`, with any white space around a tight name, becomes
      `{{name}}`. */
  lemma TightenPadded(lead: string, v: string, trail: string)
    requires forall k :: 0 <= k < |lead| ==> IsSpace(lead[k])
    requires forall k :: 0 <= k < |trail| ==> IsSpace(trail[k])
    requires TightName(v)
    ensures Normalize("{{" + lead + v + trail + "}}") == Placeholder(v)
  {
    var s := "{{" + lead + v + trail + "}}";
    var a, e := 2 + |lead|, 2 + |lead| + |v|;
    PaddedMatchWhole(lead, v, trail);
    assert s[a..e] == v;
    assert Trim(s[a..e]) == v by {
      TrimOfTrimmed(v);
    }
    assert NormalizeFrom(s, |s|) == [];
  }

  /** The padded placeholder is one match, its group the name. */
  lemma PaddedMatchWhole(lead: string, v: string, trail: string)
    requires forall k :: 0 <= k < |lead| ==> IsSpace(lead[k])
    requires forall k :: 0 <= k < |trail| ==> IsSpace(trail[k])
    requires TightName(v)
    ensures var s := "{{" + lead + v + trail + "}}";
      PaddedMatchAt(s, 0) == Some((2 + |lead|, 2 + |lead| + |v|, |s|))
  {
    var s := "{{" + lead + v + trail + "}}";
    var a := 2 + |lead|;
    var e := a + |v|;
    var j := |s|;
    assert s[a..e] == v;
    assert SkipSpaces(s, 2) == a by {
      forall k | 2 <= k < a ensures IsSpace(s[k]) {
        assert s[k] == lead[k - 2];
      }
      assert s[a] == v[0];
      SkipSpacesAcross(s, 2, a);
    }
    assert ClosesAt(s, e) by {
      forall k | e <= k < j - 2 ensures IsSpace(s[k]) {
        assert s[k] == trail[k - e];
      }
      SkipSpacesAcross(s, e, j - 2);
    }
    assert LazyEnd(s, a) == Some(e) by {
      LazyEndOverName(s, a, v, a);
    }
  }

  /** The run of white space from `p` ends at `q` when it is white space
      up to `q` and not at `q`. */
  lemma {:induction false} SkipSpacesAcross(s: string, p: nat, q: nat)
    requires p <= q <= |s|
    requires forall k :: p <= k < q ==> IsSpace(s[k])
    requires q < |s| ==> !IsSpace(s[q])
    ensures SkipSpaces(s, p) == q
    decreases q - p
  {
    if p < q {
      SkipSpacesAcross(s, p + 1, q);
    }
  }

  // ---------------------------------------------------------------------
  // Saving

  /** What `handleSave` hands to the context: nothing (the alert), a new
      record for `addItem`, or a patch for `updateItem`. */
  datatype SaveRequest =
    | Refused
    | AddRequest(draft: Draft)
    | UpdateRequest(id: string, patch: Patch)

  /** `category.trim() || undefined`. */
  function FinalCategory(category: string): (r: Option<string>)
    ensures r.Some? ==> r.value != [] && !IsSpace(r.value[0]) && !IsSpace(r.value[|r.value| - 1])
  {
    if IsBlank(category) then None else Some(Trim(category))
  }

  /** The category is dropped exactly when the picker holds only white
      space. */
  lemma FinalCategoryDropped(category: string)
    ensures FinalCategory(category).None? <==> forall k :: 0 <= k < |category| ==> IsSpace(category[k])
  {
    BlankIffAllSpace(category);
  }

  /** The request for validated fields: a patch of every field when an
      item is being edited, a new record otherwise. */
  function Request(editing: Option<Item>, title: string, content: string, category: string,
                   favorite: bool, isTemplate: bool): SaveRequest {
    var cat := FinalCategory(category);
    match editing
    case Some(it) =>
      UpdateRequest(it.id, Patch(Put(title), Put(content), Put(cat), Put(Some(favorite)), Put(Some(isTemplate))))
    case None =>
      AddRequest(Draft(title, content, cat, Some(favorite), Some(isTemplate)))
  }

  /** `handleSave` of the clipboard screen: the text is saved as typed. */
  function ClipboardSave(editing: Option<Item>, title: string, content: string, category: string,
                         favorite: bool): (r: SaveRequest)
    ensures r.Refused? <==> IsBlank(title) || IsBlank(content)
    ensures r.AddRequest? ==> editing.None? && r.draft.content == content && r.draft.isTemplate == Some(false)
    ensures r.UpdateRequest? ==>
      && editing.Some? && r.id == editing.value.id
      && r.patch.content == Put(content) && r.patch.isTemplate == Put(Some(false))
  {
    if IsBlank(title) || IsBlank(content) then Refused
    else Request(editing, title, content, category, favorite, false)
  }

  /** `handleSave` of the template screen: the text is normalised and the
      record is always a template. */
  function TemplateSave(editing: Option<Item>, title: string, content: string, category: string,
                        favorite: bool): (r: SaveRequest)
    ensures r.Refused? <==> IsBlank(title) || IsBlank(content)
    ensures r.AddRequest? ==> editing.None? && r.draft.content == Normalize(content) && r.draft.isTemplate == Some(true)
    ensures r.UpdateRequest? ==>
      && editing.Some? && r.id == editing.value.id
      && r.patch.content == Put(Normalize(content)) && r.patch.isTemplate == Put(Some(true))
  {
    if IsBlank(title) || IsBlank(content) then Refused
    else Request(editing, title, Normalize(content), category, favorite, true)
  }

  /** The category a request writes: never blank, absent exactly when the
      picker held only white space. */
  function SavedCategory(r: SaveRequest): Option<string>
    requires !r.Refused?
  {
    if r.AddRequest? then r.draft.category
    else if r.patch.category.Put? then r.patch.category.value else None
  }

  lemma SavedCategoryTrimmed(editing: Option<Item>, title: string, content: string, category: string,
                             favorite: bool)
    requires !IsBlank(title) && !IsBlank(content)
    ensures var c := SavedCategory(ClipboardSave(editing, title, content, category, favorite));
      && (c.None? <==> IsBlank(category))
      && (c.Some? ==> c.value == Trim(category))
    ensures SavedCategory(TemplateSave(editing, title, content, category, favorite))
         == SavedCategory(ClipboardSave(editing, title, content, category, favorite))
  {
  }

  /** The content a template save writes holds the typed text apart from
      white space inside placeholders, so it is never blank. */
  lemma TemplateContentKept(content: string)
    requires !IsBlank(content)
    ensures NonSpace(Normalize(content)) == NonSpace(content)
    ensures !IsBlank(Normalize(content))
  {
    NormalizeKeepsText(content, 0);
    assert content[0..] == content;
    BlankIffAllSpace(content);
    var k :| 0 <= k < |content| && !IsSpace(content[k]);
    NonSpaceNotEmpty(content, k);
    var n := Normalize(content);
    BlankIffAllSpace(n);
    if forall i :: 0 <= i < |n| ==> IsSpace(n[i]) {
      NonSpaceOfSpaces(n);
    }
  }

  lemma {:induction false} NonSpaceNotEmpty(s: string, k: nat)
    requires k < |s| && !IsSpace(s[k])
    ensures NonSpace(s) != []
  {
    if k > 0 && IsSpace(s[0]) {
      NonSpaceNotEmpty(s[1..], k - 1);
    }
  }

  // ---------------------------------------------------------------------
  // The category picker

  /** The picker's state: the selected category and the text of the "new
      category" field. Selecting and deleting are the same on both screens;
      `Create` is the clipboard screen's. */
  class CategoryPicker {
    var category: string
    var newCategoryInput: string

    constructor (category: string)
      ensures this.category == category && newCategoryInput == []
    {
      this.category := category;
      newCategoryInput := [];
    }

    /** `handleCategorySelect`. */
    method Select(chosen: string)
      modifies this`category
      ensures category == SelectCategory(old(category), chosen)
    {
      if category == chosen {
        category := [];
      } else {
        category := chosen;
      }
    }

    /** The clipboard screen's `handleCreateCategory` against the listed
        categories `all`. The returned name is the one handed to
        `addCustomCategory`; `added` says whether that call succeeded. Only
        then is it selected and the field cleared. The template screen's
        handler differs in its guard alone: it checks the untrimmed input
        (`CreateTargetAsWritten`), and with that check corrected it is this
        method. */
    method Create(all: seq<string>, added: bool) returns (request: Option<string>)
      modifies this
      ensures request == CreateTarget(all, old(newCategoryInput))
      ensures request.Some? && added ==> category == request.value && newCategoryInput == []
      ensures request.None? || !added ==> category == old(category) && newCategoryInput == old(newCategoryInput)
    {
      var name := Trim(newCategoryInput);
      if name == [] {
        return None;
      }
      if exists i | 0 <= i < |all| :: Lower(all[i]) == Lower(name) {
        return None;
      }
      request := Some(name);
      if added {
        category := name;
        newCategoryInput := [];
      }
    }

    /** `handleDeleteCategory`: a category that any item uses, up to case,
        is refused before the confirmation; otherwise, once `confirmed`,
        the returned name is handed to the sync service's
        `deleteCustomCategory`, and when that `deleted` it and it was the
        selected one, the selection is cleared. */
    method Delete(items: seq<Item>, target: string, confirmed: bool, deleted: bool)
      returns (request: Option<string>)
      modifies this`category
      ensures request.Some? <==> confirmed && forall i :: 0 <= i < |items| ==> !UsedBy(items[i], target)
      ensures request.Some? ==> request.value == target
      ensures category == if request.Some? && deleted && old(category) == target then [] else old(category)
    {
      if UsageCount(items, target) > 0 {
        return None;
      }
      if !confirmed {
        return None;
      }
      request := Some(target);
      if deleted && category == target {
        category := [];
      }
    }
  }

  // ---------------------------------------------------------------------
  // The template information dialog

  /** The dialog of the template screen. `openedViaButton` tells the
      info button from the automatic opening on mount. */
  class InfoDialog {
    var visible: bool
    var dontShowAgain: bool
    var openedViaButton: bool
    const store: StorageFacade

    constructor (store: StorageFacade)
      ensures !visible && !dontShowAgain && !openedViaButton && this.store == store
    {
      visible := false;
      dontShowAgain := false;
      openedViaButton := false;
      this.store := store;
    }

    /** The mount effect: the dialog opens by itself unless the flag is
        stored. */
    method Mount(engineOk: bool)
      modifies this`visible, this`openedViaButton, store, store.instance
      ensures store.SameInstance() && store.Contents() == old(store.Contents())
      ensures store.IsOpen() == (old(store.IsOpen()) || engineOk)
      ensures var v := TemplateInfoDismissedKey;
        var dismissed := store.IsOpen() && v in store.Contents() && store.Contents()[v] == Flag(true);
        if dismissed then visible == old(visible) && openedViaButton == old(openedViaButton)
        else visible && !openedViaButton
    {
      var v := store.Get(TemplateInfoDismissedKey, Flag(false), engineOk);
      if v != Flag(true) {
        openedViaButton := false;
        visible := true;
      }
    }

    /** The info button. */
    method OpenViaButton()
      modifies this`visible, this`openedViaButton
      ensures visible && openedViaButton
    {
      openedViaButton := true;
      visible := true;
    }

    /** The "don't show again" box, offered only when the dialog opened by
        itself. */
    method Toggle()
      requires visible && !openedViaButton
      modifies this`dontShowAgain
      ensures dontShowAgain == !old(dontShowAgain)
    {
      dontShowAgain := !dontShowAgain;
    }

    /** `handleInfoClose`: the flag is stored only when the dialog opened by
        itself and the box is ticked. */
    method Close(engineOk: bool)
      modifies this`visible, this`openedViaButton, store, store.instance
      ensures !visible && !openedViaButton
      ensures !old(openedViaButton) && old(dontShowAgain) ==>
        store.SameInstance() && store.IsOpen() == (old(store.IsOpen()) || engineOk) &&
        store.Contents() == if store.IsOpen() then old(store.Contents())[TemplateInfoDismissedKey := Flag(true)] else old(store.Contents())
      ensures old(openedViaButton) || !old(dontShowAgain) ==>
        store.instance == old(store.instance) && store.Contents() == old(store.Contents())
    {
      if !openedViaButton && dontShowAgain {
        store.Set(TemplateInfoDismissedKey, Flag(true), engineOk);
      }
      visible := false;
      openedViaButton := false;
    }
  }

  /** Ticking the box on the automatic dialog and closing it keeps the
      dialog from opening by itself on the next mount, once the engine is
      up; `reopened` is whether the next mount shows it. */
  method DismissThenRemount(store: StorageFacade) returns (reopened: bool)
    modifies store, store.instance
    ensures !reopened
    ensures store.IsOpen() && TemplateInfoDismissedKey in store.Contents()
    ensures store.Contents()[TemplateInfoDismissedKey] == Flag(true)
  {
    var dialog := new InfoDialog(store);
    dialog.Mount(true);
    if dialog.visible && !dialog.openedViaButton {
      dialog.Toggle();
      dialog.Close(true);
    }
    var next := new InfoDialog(store);
    next.Mount(true);
    reopened := next.visible;
  }
}
