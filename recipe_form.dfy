/** The recipe form: how its fields are initialised from the recipe being
    edited, how one field changes, and how the list fields are turned back
    into sequences on submit. */
module RecipeForm {
  import opened Wrappers
  import opened Entities
  import opened Strings

  /** The `initialData` object the form receives; any field may be absent. */
  datatype InitialData = InitialData(
    title: Option<string>,
    cuisine: Option<string>,
    duration: Option<int>,
    description: Option<string>,
    ingredients: Option<seq<string>>,
    instructions: Option<seq<string>>)

  /** The form's state: every field as its input shows it, the two list fields
      as one line per element. */
  datatype FormState = FormState(
    title: string,
    cuisine: string,
    duration: InputValue,
    description: string,
    ingredients: string,
    instructions: string)

  /** The `name` attribute of each input. */
  datatype Field = Title | Cuisine | Duration | Description | Ingredients | Instructions

  /** A stored recipe handed to the form as its initial data. */
  function FromRecipe(r: Recipe): InitialData
  {
    InitialData(Some(r.title), Some(r.cuisine), Some(r.duration), Some(r.description),
                Some(r.ingredients), Some(r.instructions))
  }

  /** `value || ''` for an optional string. */
  function TextOr(v: Option<string>): string
  {
    if v.Some? then v.value else ""
  }

  /** A list field as the form shows it: its elements joined with newlines,
      or the empty text when the list is absent. */
  function ShowLines(lines: Option<seq<string>>): (text: string)
    ensures lines.None? ==> text == ""
    ensures (lines.Some? && lines.value != [] &&
             forall i :: 0 <= i < |lines.value| ==> '\n' !in lines.value[i]) ==>
            Split(text, '\n') == lines.value
  {
    if lines.None? then ""
    else if lines.value != [] && forall i :: 0 <= i < |lines.value| ==> '\n' !in lines.value[i] then
      SplitJoin(lines.value, '\n');
      Join(lines.value, '\n')
    else Join(lines.value, '\n')
  }

  /** The form's initial state: each field from the initial data, the empty
      text where the data or the field is absent (a zero duration is falsy, so
      it starts empty too). */
  function InitForm(init: Option<InitialData>): (f: FormState)
    ensures init.None? ==> forall name :: Get(f, name) == Str("")
    ensures init.Some? ==>
      var d := init.value;
      f.title == TextOr(d.title) && f.cuisine == TextOr(d.cuisine) &&
      f.description == TextOr(d.description) &&
      (d.duration.Some? && d.duration.value != 0 ==> f.duration == Num(d.duration.value)) &&
      (d.duration.None? || d.duration.value == 0 ==> f.duration == Str("")) &&
      (d.ingredients.Some? ==> f.ingredients == Join(d.ingredients.value, '\n')) &&
      (d.ingredients.None? ==> f.ingredients == "") &&
      (d.instructions.Some? ==> f.instructions == Join(d.instructions.value, '\n')) &&
      (d.instructions.None? ==> f.instructions == "")
  {
    match init
    case None => FormState("", "", Str(""), "", "", "")
    case Some(d) =>
      FormState(
        TextOr(d.title),
        TextOr(d.cuisine),
        if d.duration.Some? && d.duration.value != 0 then Num(d.duration.value) else Str(""),
        TextOr(d.description),
        ShowLines(d.ingredients),
        ShowLines(d.instructions))
  }

  /** The value of one field of the form. */
  function Get(f: FormState, name: Field): InputValue
  {
    match name
    case Title => Str(f.title)
    case Cuisine => Str(f.cuisine)
    case Duration => f.duration
    case Description => Str(f.description)
    case Ingredients => Str(f.ingredients)
    case Instructions => Str(f.instructions)
  }

  /** `handleChange`: the named field takes the typed value, every other field
      keeps its value. */
  function HandleChange(f: FormState, name: Field, value: string): (r: FormState)
    ensures Get(r, name) == Str(value)
    ensures forall other :: other != name ==> Get(r, other) == Get(f, other)
  {
    match name
    case Title => f.(title := value)
    case Cuisine => f.(cuisine := value)
    case Duration => f.(duration := Str(value))
    case Description => f.(description := value)
    case Ingredients => f.(ingredients := value)
    case Instructions => f.(instructions := value)
  }

  /** `map(s => s.trim())`. */
  function TrimEach(lines: seq<string>): (r: seq<string>)
    ensures |r| == |lines|
  {
    if lines == [] then [] else [Trim(lines[0])] + TrimEach(lines[1..])
  }

  lemma {:induction false} TrimEachAt(lines: seq<string>, i: nat)
    requires i < |lines|
    ensures TrimEach(lines)[i] == Trim(lines[i])
  {
    if i > 0 {
      TrimEachAt(lines[1..], i - 1);
    }
  }

  /** `filter(Boolean)` on strings: the non-empty ones, in order. */
  function DropEmpty(lines: seq<string>): (r: seq<string>)
    ensures |r| <= |lines|
    ensures forall i :: 0 <= i < |r| ==> r[i] != ""
    ensures (forall i :: 0 <= i < |lines| ==> lines[i] != "") ==> r == lines
  {
    if lines == [] then []
    else if lines[0] == "" then DropEmpty(lines[1..])
    else [lines[0]] + DropEmpty(lines[1..])
  }

  /** A line as the submitted lists hold it: non-empty, trimmed, one line. */
  predicate IsCleanLine(l: string)
  {
    l != "" && IsTrimmed(l) && '\n' !in l
  }

  /** A list field on submit: split on newlines, each piece trimmed, empty
      pieces dropped. Every resulting element is a clean line. */
  function ParseLines(text: string): (r: seq<string>)
    ensures forall i :: 0 <= i < |r| ==> IsCleanLine(r[i])
  {
    var pieces := Split(text, '\n');
    var trimmed := TrimEach(pieces);
    forall i | 0 <= i < |trimmed| ensures IsTrimmed(trimmed[i]) && '\n' !in trimmed[i] {
      TrimEachAt(pieces, i);
      TrimKeepsOut(pieces[i], '\n');
    }
    DropEmptyClean(trimmed);
    DropEmpty(trimmed)
  }

  /** Dropping the empty lines of trimmed single lines leaves clean lines. */
  lemma {:induction false} DropEmptyClean(lines: seq<string>)
    requires forall i :: 0 <= i < |lines| ==> IsTrimmed(lines[i]) && '\n' !in lines[i]
    ensures forall i :: 0 <= i < |DropEmpty(lines)| ==> IsCleanLine(DropEmpty(lines)[i])
  {
    if lines != [] {
      DropEmptyClean(lines[1..]);
    }
  }

  /** `handleSubmit`: the text fields are passed on unchanged, the two list
      fields as the lines `ParseLines` extracts. */
  function Submit(f: FormState): (r: RecipeInput)
    ensures r.title == f.title && r.cuisine == f.cuisine
    ensures r.duration == f.duration && r.description == f.description
    ensures forall i :: 0 <= i < |r.ingredients| ==> IsCleanLine(r.ingredients[i])
    ensures forall i :: 0 <= i < |r.instructions| ==> IsCleanLine(r.instructions[i])
    ensures r.ingredients == ParseLines(f.ingredients)
    ensures r.instructions == ParseLines(f.instructions)
  {
    RecipeInput(f.title, f.cuisine, f.duration, f.description,
                ParseLines(f.ingredients), ParseLines(f.instructions))
  }

  lemma {:induction false} TrimEachAppend(a: seq<string>, b: seq<string>)
    ensures TrimEach(a + b) == TrimEach(a) + TrimEach(b)
  {
    if a == [] {
      assert a + b == b;
    } else {
      assert (a + b)[1..] == a[1..] + b;
      TrimEachAppend(a[1..], b);
      assert (a + b)[0] == a[0];
    }
  }

  lemma {:induction false} DropEmptyAppend(a: seq<string>, b: seq<string>)
    ensures DropEmpty(a + b) == DropEmpty(a) + DropEmpty(b)
  {
    if a == [] {
      assert a + b == b;
    } else {
      assert (a + b)[1..] == a[1..] + b;
      DropEmptyAppend(a[1..], b);
      assert (a + b)[0] == a[0];
      if a[0] != "" {
        calc {
          DropEmpty(a + b);
          [a[0]] + DropEmpty(a[1..] + b);
          [a[0]] + (DropEmpty(a[1..]) + DropEmpty(b));
          ([a[0]] + DropEmpty(a[1..])) + DropEmpty(b);
        }
      }
    }
  }

  lemma {:induction false} DropEmptyOfNonEmpty(lines: seq<string>)
    requires forall i :: 0 <= i < |lines| ==> lines[i] != ""
    ensures DropEmpty(lines) == lines
  {
    if lines != [] {
      DropEmptyOfNonEmpty(lines[1..]);
    }
  }

  /** Parsing is compositional and keeps order: the lines of two texts joined
      by a newline are the lines of the first followed by those of the second. */
  lemma {:induction false} ParseLinesAppend(a: string, b: string)
    ensures ParseLines(a + "\n" + b) == ParseLines(a) + ParseLines(b)
  {
    SplitAround(a, b, '\n');
    TrimEachAppend(Split(a, '\n'), Split(b, '\n'));
    DropEmptyAppend(TrimEach(Split(a, '\n')), TrimEach(Split(b, '\n')));
  }

  /** A text without a newline yields its trim, or nothing when that is empty. */
  lemma {:induction false} ParseOneLine(l: string)
    requires '\n' !in l
    ensures ParseLines(l) == if Trim(l) == "" then [] else [Trim(l)]
  {
    SplitWithoutSeparator(l, '\n');
    assert TrimEach([l]) == [Trim(l)] by { assert [l][1..] == []; }
    assert DropEmpty([Trim(l)]) == (if Trim(l) == "" then [] else [Trim(l)]) by {
      assert [Trim(l)][1..] == [];
    }
  }

  /** Round trip: a list of clean lines, shown one per line and submitted
      unchanged, comes back as the same list. */
  lemma {:induction false} ShowThenParse(lines: seq<string>)
    requires forall i :: 0 <= i < |lines| ==> IsCleanLine(lines[i])
    ensures ParseLines(ShowLines(Some(lines))) == lines
  {
    if lines == [] {
      assert Split("", '\n') == [""];
      assert TrimEach([""]) == [""];
    } else {
      SplitJoin(lines, '\n');
      forall i | 0 <= i < |lines| ensures TrimEach(lines)[i] == lines[i] {
        TrimEachAt(lines, i);
        TrimOfTrimmed(lines[i]);
      }
      assert TrimEach(lines) == lines;
      DropEmptyOfNonEmpty(lines);
    }
  }

  /** Submitting normalises: showing the parsed lines and parsing them again
      changes nothing. */
  lemma ParseIdempotent(text: string)
    ensures ParseLines(ShowLines(Some(ParseLines(text)))) == ParseLines(text)
  {
    ShowThenParse(ParseLines(text));
  }

  /** Opening a stored recipe in the form and saving it untouched passes on
      its text fields and, when its lists hold clean lines, the same lists. */
  lemma ResubmitUnchanged(r: Recipe)
    requires forall i :: 0 <= i < |r.ingredients| ==> IsCleanLine(r.ingredients[i])
    requires forall i :: 0 <= i < |r.instructions| ==> IsCleanLine(r.instructions[i])
    ensures Submit(InitForm(Some(FromRecipe(r)))) ==
      RecipeInput(r.title, r.cuisine, if r.duration != 0 then Num(r.duration) else Str(""),
                  r.description, r.ingredients, r.instructions)
  {
    ShowThenParse(r.ingredients);
    ShowThenParse(r.instructions);
  }
}
