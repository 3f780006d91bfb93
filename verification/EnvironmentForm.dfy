/** Comma-separated lists and slugs of the environment form (frontend/src/components/environment-form.tsx). */
module EnvironmentForm {
  import opened Common

  // ----- Lists -----

  /** value.split(",") */
  function Split(s: string): (r: seq<string>)
    ensures r != []
    ensures forall item :: item in r ==> ',' !in item
  {
    if s == "" then [""]
    else if s[0] == ',' then [""] + Split(s[1..])
    else
      assert Split(s[1..])[0] in Split(s[1..]);
      Prepend(s[0], Split(s[1..]))
  }

  /** c in front of the first item. */
  function Prepend(c: char, items: seq<string>): seq<string>
    requires items != []
  {
    [[c] + items[0]] + items[1..]
  }

  lemma PrependConcat(c: char, a: seq<string>, b: seq<string>)
    requires a != []
    ensures Prepend(c, a + b) == Prepend(c, a) + b
  {
  }

  /** Trims every item and drops the empty ones. */
  function Clean(items: seq<string>): (r: seq<string>)
    ensures (forall item :: item in items ==> ',' !in item) ==> forall item :: item in r ==> Plain(item)
  {
    if items == [] then []
    else
      var item := Trim(items[0], ScriptSpace);
      (if item == "" then [] else [item]) + Clean(items[1..])
  }

  function SplitCsv(s: string): seq<string>
  {
    Clean(Split(s))
  }

  /** items.join(", ") */
  function Join(items: seq<string>): string
  {
    if items == [] then ""
    else if |items| == 1 then items[0]
    else items[0] + ", " + Join(items[1..])
  }

  /** An item the form can hold. */
  predicate Plain(item: string)
  {
    item != "" && Trimmed(item, ScriptSpace) && ',' !in item
  }

  /** Each item of the list taken apart on its own. */
  function TakenApart(items: seq<string>): seq<string>
  {
    if items == [] then [] else SplitCsv(items[0]) + TakenApart(items[1..])
  }

  lemma {:induction false} SplitAtComma(a: string, b: string)
    ensures Split(a + "," + b) == Split(a) + Split(b)
  {
    var s := a + "," + b;
    if a == "" {
      assert s[1..] == b;
    } else {
      SplitAtComma(a[1..], b);
      assert s[1..] == a[1..] + "," + b && s[0] == a[0];
      PrependConcat(a[0], Split(a[1..]), Split(b));
    }
  }

  lemma {:induction false} CleanConcat(a: seq<string>, b: seq<string>)
    ensures Clean(a + b) == Clean(a) + Clean(b)
  {
    if a == [] {
      assert a + b == b;
    } else {
      assert (a + b)[1..] == a[1..] + b;
      CleanConcat(a[1..], b);
    }
  }

  /** A leading space makes no difference. */
  lemma LeadingSpace(s: string)
    ensures SplitCsv(" " + s) == SplitCsv(s)
  {
  }

  lemma JoinStep(items: seq<string>)
    requires |items| > 1
    ensures Join(items) == items[0] + "," + (" " + Join(items[1..]))
  {
  }

  /** The first item apart from the rest. */
  lemma SplitStep(item: string, rest: string)
    ensures SplitCsv(item + "," + (" " + rest)) == SplitCsv(item) + SplitCsv(rest)
  {
    SplitAtComma(item, " " + rest);
    CleanConcat(Split(item), Split(" " + rest));
    LeadingSpace(rest);
  }

  /** Joining and splitting again takes every item apart at its own commas. */
  lemma {:induction false} SplitAfterJoin(items: seq<string>)
    ensures SplitCsv(Join(items)) == TakenApart(items)
  {
    if |items| == 1 {
      assert TakenApart(items[1..]) == [];
    } else if items != [] {
      SplitAfterJoin(items[1..]);
      JoinStep(items);
      SplitStep(items[0], Join(items[1..]));
    }
  }

  lemma {:induction false} PlainStaysWhole(item: string)
    requires ',' !in item
    ensures Split(item) == [item]
  {
    if item != "" {
      assert item[0] in item && forall c :: c in item[1..] ==> c in item;
      PlainStaysWhole(item[1..]);
      assert [item[0]] + item[1..] == item;
    }
  }

  lemma {:induction false} PlainItemsStay(items: seq<string>)
    requires forall item :: item in items ==> Plain(item)
    ensures TakenApart(items) == items
  {
    if items != [] {
      assert Plain(items[0]);
      PlainStaysWhole(items[0]);
      assert [items[0]][1..] == [];
      assert Clean([items[0]]) == [items[0]] + Clean([]);
      PlainItemsStay(items[1..]);
    }
  }

  /** Main result: a stored list survives the form if and only if its items are non-empty, trimmed and
      free of commas. */
  lemma ListRoundTrip(items: seq<string>)
    ensures SplitCsv(Join(items)) == items <==> forall item :: item in items ==> Plain(item)
  {
    SplitAfterJoin(items);
    if forall item :: item in items ==> Plain(item) {
      PlainItemsStay(items);
    }
  }

  /** Whatever was typed, the list the form stores reads back as itself. */
  lemma {:induction false} TypedListIsStable(s: string)
    ensures SplitCsv(Join(SplitCsv(s))) == SplitCsv(s)
  {
    ListRoundTrip(SplitCsv(s));
  }

  // ----- Slugs -----

  predicate SlugChar(c: char) { 'a' <= c <= 'z' || '0' <= c <= '9' }

  predicate Dash(c: char) { c == '-' }

  /** Every run of other characters becomes one dash; inRun says that the run has its dash already. */
  function Collapse(s: string, inRun: bool): string
  {
    if s == "" then ""
    else if SlugChar(s[0]) then [s[0]] + Collapse(s[1..], false)
    else if inRun then Collapse(s[1..], true)
    else "-" + Collapse(s[1..], true)
  }

  /** lower is String.toLowerCase. */
  function Slugify(lower: string -> string, s: string): string
  {
    Trim(Collapse(Trim(lower(s), ScriptSpace), false), Dash)
  }

  /** Lower-case letters and digits in groups, with single dashes between the groups. */
  ghost predicate IsSlug(s: string)
  {
    SingleDashes(s) && Trimmed(s, Dash)
  }

  ghost predicate SingleDashes(s: string)
  {
    forall k :: 0 <= k < |s| ==> (SlugChar(s[k]) || s[k] == '-') && (k > 0 && s[k] == '-' ==> s[k - 1] != '-')
  }

  lemma {:induction false} CollapseShape(s: string, inRun: bool)
    ensures SingleDashes(Collapse(s, inRun))
    ensures inRun ==> Collapse(s, inRun) == "" || Collapse(s, inRun)[0] != '-'
  {
    if s != "" {
      CollapseShape(s[1..], !SlugChar(s[0]));
    }
  }

  lemma {:induction false} TrimKeepsSingle(s: string, space: char -> bool)
    requires SingleDashes(s)
    ensures SingleDashes(Trim(s, space))
    decreases |s|
  {
    if s != "" && space(s[0]) {
      TrimKeepsSingle(s[1..], space);
    } else if s != "" && space(s[|s| - 1]) {
      TrimKeepsSingle(s[..|s| - 1], space);
    }
  }

  lemma {:induction false} CollapseKeeps(s: string, inRun: bool)
    requires SingleDashes(s) && (inRun ==> s == "" || s[0] != '-')
    ensures Collapse(s, inRun) == s
  {
    if s != "" {
      assert forall k :: 0 <= k < |s[1..]| ==> s[1..][k] == s[k + 1];
      CollapseKeeps(s[1..], !SlugChar(s[0]));
    }
  }

  /** A slug is what slugify produces, and slugify leaves exactly the slugs alone. */
  lemma SlugifyFixesSlugs(lower: string -> string, s: string)
    requires forall t :: SingleDashes(t) ==> lower(t) == t
    ensures IsSlug(Slugify(lower, s))
    ensures Slugify(lower, s) == s <==> IsSlug(s)
    ensures Slugify(lower, Slugify(lower, s)) == Slugify(lower, s)
  {
    ShapeOfSlugify(lower, s);
    SlugStays(lower, Slugify(lower, s));
    if IsSlug(s) {
      SlugStays(lower, s);
    }
  }

  lemma ShapeOfSlugify(lower: string -> string, s: string)
    ensures IsSlug(Slugify(lower, s))
  {
    CollapseShape(Trim(lower(s), ScriptSpace), false);
    TrimKeepsSingle(Collapse(Trim(lower(s), ScriptSpace), false), Dash);
  }

  lemma SlugStays(lower: string -> string, s: string)
    requires (forall t :: SingleDashes(t) ==> lower(t) == t) && IsSlug(s)
    ensures Slugify(lower, s) == s
  {
    assert s != "" ==> !ScriptSpace(s[0]) && !ScriptSpace(s[|s| - 1]);
    CollapseKeeps(s, false);
  }

  // ----- Words -----

  /** The longest runs of lower-case letters and digits, in order. */
  function Words(s: string): seq<string>
  {
    if s == "" then []
    else if !SlugChar(s[0]) then Words(s[1..])
    else if Words(s[1..]) == [] || !SlugChar(s[1]) then [[s[0]]] + Words(s[1..])
    else Prepend(s[0], Words(s[1..]))
  }

  /** A text of letters and digits is one word. */
  lemma {:induction false} WordIsAlone(s: string)
    requires s != "" && forall c :: c in s ==> SlugChar(c)
    ensures Words(s) == [s]
  {
    assert s[0] in s && [s[0]] + s[1..] == s;
    if |s| > 1 {
      assert s[1] in s && forall c :: c in s[1..] ==> c in s;
      WordIsAlone(s[1..]);
      assert Words(s) == Prepend(s[0], [s[1..]]);
    } else {
      assert [s[0]] == s && Words(s) == [[s[0]]] + Words(s[1..]);
    }
  }

  /** Any other character separates words. */
  lemma {:induction false} WordsApart(a: string, c: char, b: string)
    requires !SlugChar(c)
    ensures Words(a + [c] + b) == Words(a) + Words(b)
  {
    var s := a + [c] + b;
    if a == "" {
      assert s[0] == c && s[1..] == b;
    } else {
      assert s[0] == a[0] && s[1..] == a[1..] + [c] + b;
      WordsApart(a[1..], c, b);
      if |a| == 1 {
        assert s[1] == c;
      } else {
        assert s[1] == a[1];
        if SlugChar(a[1]) {
          assert Words(a[1..]) != [];
        }
      }
    }
  }

  /** The words with a dash between neighbours. */
  function Dashed(words: seq<string>): string
  {
    if words == [] then "" else if |words| == 1 then words[0] else words[0] + "-" + Dashed(words[1..])
  }

  function Lead(s: string, inRun: bool): string
  {
    if s != "" && !SlugChar(s[0]) && !inRun then "-" else ""
  }

  function Trail(s: string): string
  {
    if s != "" && !SlugChar(s[|s| - 1]) && Words(s) != [] then "-" else ""
  }

  lemma {:induction false} NoWords(s: string)
    requires Words(s) == [] && s != ""
    ensures !SlugChar(s[|s| - 1])
  {
    if |s| > 1 {
      NoWords(s[1..]);
    }
  }

  lemma LetterInFront(c: char, s: string)
    requires SlugChar(c)
    ensures [c] + (Lead(s, false) + Dashed(Words(s)) + Trail(s)) == Dashed(Words([c] + s)) + Trail([c] + s)
  {
    var t := [c] + s;
    assert t[1..] == s;
    if s != "" && Words(s) == [] {
      NoWords(s);
    }
    if s != "" {
      assert t[1] == s[0] && t[|t| - 1] == s[|s| - 1];
    }
  }

  lemma {:induction false} CollapseWords(s: string, inRun: bool)
    ensures Collapse(s, inRun) == Lead(s, inRun) + Dashed(Words(s)) + Trail(s)
  {
    if s != "" {
      CollapseWords(s[1..], !SlugChar(s[0]));
      if SlugChar(s[0]) {
        LetterInFront(s[0], s[1..]);
        assert [s[0]] + s[1..] == s;
      }
    }
  }

  /** The words begin and end with letters or digits, and so does their join. */
  lemma {:induction false} DashedIsTrimmed(s: string)
    ensures Trimmed(Dashed(Words(s)), Dash)
    ensures Words(s) != [] ==> Dashed(Words(s)) != ""
  {
    if s != "" {
      DashedIsTrimmed(s[1..]);
      if SlugChar(s[0]) {
        LetterInFront(s[0], s[1..]);
        assert [s[0]] + s[1..] == s;
      }
    }
  }

  lemma {:induction false} OuterSpaceHasNoWords(s: string)
    ensures Words(Trim(s, ScriptSpace)) == Words(s)
    decreases |s|
  {
    if s != "" && ScriptSpace(s[0]) {
      OuterSpaceHasNoWords(s[1..]);
    } else if s != "" && ScriptSpace(s[|s| - 1]) {
      OuterSpaceHasNoWords(s[..|s| - 1]);
      WordsApart(s[..|s| - 1], s[|s| - 1], "");
      assert s[..|s| - 1] + [s[|s| - 1]] + "" == s;
    }
  }

  lemma TrimDashes(lead: string, s: string, trail: string)
    requires lead in {"", "-"} && trail in {"", "-"} && Trimmed(s, Dash) && (s == "" ==> trail == "")
    ensures Trim(lead + s + trail, Dash) == s
  {
    var inner := s + trail;
    assert lead != "" ==> (lead + s + trail)[0] == '-' && (lead + s + trail)[1..] == inner;
    assert lead == "" ==> lead + s + trail == inner;
    if trail != "" {
      assert inner[0] == s[0] && inner[|inner| - 1] == '-' && inner[..|inner| - 1] == s;
    } else {
      assert inner == s;
    }
  }

  /** Main result: the slug of a name is its words with single dashes between them. */
  lemma SlugIsWords(lower: string -> string, s: string)
    ensures Slugify(lower, s) == Dashed(Words(lower(s)))
  {
    var t := Trim(lower(s), ScriptSpace);
    OuterSpaceHasNoWords(lower(s));
    CollapseWords(t, false);
    DashedIsTrimmed(t);
    TrimDashes(Lead(t, false), Dashed(Words(t)), Trail(t));
  }
}
