/**
 * The record parser of the backend (`parse_recipe_text`): one recipe block is
 * split into labelled sections in a single pass over its lines, and the
 * sections are projected onto the eleven fields of a recipe.
 *
 * A line is a label line when it matches `^([\w\s/]+):\s*(.*)`. Its label is
 * stripped, lower-cased and has every space and `/` deleted to give the
 * section key; its remainder, stripped, is the first line of the section.
 * Following lines that are not label lines are stripped and appended to the
 * open section. A label line closes the open section, storing its lines
 * joined by newlines and stripped.
 */
module RecipeParser {
  import opened Text
  import opened Records

  predicate IsLabelChar(c: char) {
    IsWordChar(c) || IsSpace(c) || c == '/'
  }

  /** Length of the longest prefix made of characters of the class `[\w\s/]`. */
  function LabelRun(line: string): (k: nat)
    ensures k <= |line|
    ensures forall i :: 0 <= i < k ==> IsLabelChar(line[i])
    ensures k == |line| || !IsLabelChar(line[k])
  {
    if line != [] && IsLabelChar(line[0]) then 1 + LabelRun(line[1..]) else 0
  }

  /**
   * The line matches `^([\w\s/]+):`: some non-empty prefix of class
   * characters is followed by a colon. The class excludes `:`, so the greedy
   * run of class characters is the only candidate for the label.
   */
  predicate IsLabelLine(line: string): (b: bool)
    ensures b <==> exists k :: 0 < k < |line| && line[k] == ':' && forall i :: 0 <= i < k ==> IsLabelChar(line[i])
  {
    LabelRunOnlyCandidate(line);
    var k := LabelRun(line);
    0 < k < |line| && line[k] == ':'
  }

  /** A prefix of class characters followed by a colon is exactly the greedy run. */
  lemma LabelRunOnlyCandidate(line: string)
    ensures forall k ::
      (0 < k < |line| && line[k] == ':' && (forall i :: 0 <= i < k ==> IsLabelChar(line[i]))) ==> LabelRun(line) == k
  {
    assert !IsLabelChar(':');
  }

  /** The section key: the label stripped, lower-cased, spaces and slashes deleted. */
  function Key(line: string): (key: string)
    requires IsLabelLine(line)
    ensures ' ' !in key && '/' !in key
  {
    Without(Without(Lower(Strip(line[..LabelRun(line)])), ' '), '/')
  }

  /** What follows the colon, stripped: the first line of the section. */
  function Value(line: string): (v: string)
    requires IsLabelLine(line)
    ensures |v| < |line|
    ensures v == [] || (!IsSpace(v[0]) && !IsSpace(v[|v| - 1]))
  {
    StripEnds(line[LabelRun(line) + 1..]);
    Strip(line[LabelRun(line) + 1..])
  }

  /** The loop state: sections stored so far, the open section's key, its lines. */
  datatype Scan = Scan(parsed: map<string, string>, current: Option<string>, content: seq<string>)

  const Start := Scan(map[], None, [])

  /** `if current_section and section_content`: an open section with a non-empty key. */
  predicate Open(st: Scan) {
    st.current.Some? && st.current.value != "" && st.content != []
  }

  /** The open section, if any, stored under its key. */
  function Flush(st: Scan): (sections: map<string, string>)
    ensures forall key :: key in st.parsed ==> key in sections
    ensures forall key :: key in sections ==> key in st.parsed || (Open(st) && key == st.current.value)
  {
    if Open(st) then st.parsed[st.current.value := Strip(Join("\n", st.content))] else st.parsed
  }

  /** One iteration of the loop over lines. */
  function Step(st: Scan, line: string): (next: Scan)
    ensures next.parsed != st.parsed ==> Open(st)
    ensures st.current.Some? ==> next.current.Some?
  {
    if IsLabelLine(line) then Scan(Flush(st), Some(Key(line)), [Value(line)])
    else if st.current.Some? && st.current.value != "" then st.(content := st.content + [Strip(line)])
    else st
  }

  function ScanLines(st: Scan, lines: seq<string>): (last: Scan)
    ensures forall key :: key in st.parsed ==> key in last.parsed
    ensures st.current.Some? ==> last.current.Some?
    decreases |lines|
  {
    if lines == [] then st else ScanLines(Step(st, lines[0]), lines[1..])
  }

  /** The sections of a block, given as its lines. */
  function Sections(lines: seq<string>): map<string, string> {
    Flush(ScanLines(Start, lines))
  }

  /** `text.strip().split('\n')` */
  function Lines(text: string): seq<string> {
    Split(Strip(text), '\n')
  }

  /** The eleven fields of a parsed recipe, in the order of the final dictionary. */
  const FieldOrder: seq<string> := [
    "title", "image_url", "region", "category", "cooking_time", "difficulty",
    "diet_type", "ingredients", "instructions", "nutrition", "tags"
  ]

  const FieldNames: set<string> := {
    "title", "image_url", "region", "category", "cooking_time", "difficulty",
    "diet_type", "ingredients", "instructions", "nutrition", "tags"
  }

  /** The section key a field is read from: the field's own name, except for the title and the image. */
  function SectionKey(field: string): string {
    if field == "title" then "recipe_title"
    else if field == "image_url" then "imageurl"
    else field
  }

  /** The dictionary built entry by entry: each field given the section stored under its key, or "". */
  function ProjectFields(sections: map<string, string>, fields: seq<string>): map<string, string> {
    if fields == [] then map[]
    else
      var n := |fields| - 1;
      ProjectFields(sections, fields[..n])[fields[n] := Get(sections, SectionKey(fields[n]))]
  }

  /** The final projection: a dictionary with no key besides the eleven fields. */
  function Project(sections: map<string, string>): (recipe: map<string, string>)
    ensures forall field :: field in recipe ==> field in FieldNames
  {
    ProjectFieldsKeys(sections, FieldOrder);
    assert (set field | field in FieldOrder) == FieldNames;
    ProjectFields(sections, FieldOrder)
  }

  /** The dictionary has exactly the listed fields as keys. */
  lemma {:induction false} ProjectFieldsKeys(sections: map<string, string>, fields: seq<string>)
    ensures ProjectFields(sections, fields).Keys == set field | field in fields
  {
    if fields != [] {
      var n := |fields| - 1;
      ProjectFieldsKeys(sections, fields[..n]);
      assert fields == fields[..n] + [fields[n]];
    }
  }

  /** Each listed field holds the section stored under its key, or "". */
  lemma {:induction false} ProjectFieldsAt(sections: map<string, string>, fields: seq<string>, field: string)
    requires field in fields
    ensures field in ProjectFields(sections, fields)
    ensures ProjectFields(sections, fields)[field] == Get(sections, SectionKey(field))
  {
    var n := |fields| - 1;
    if fields[n] != field {
      var i :| 0 <= i < |fields| && fields[i] == field;
      assert fields[..n][i] == field;
      ProjectFieldsAt(sections, fields[..n], field);
    }
  }

  /** The projection has exactly the eleven fields. */
  lemma ProjectKeys(sections: map<string, string>)
    ensures Project(sections).Keys == FieldNames
  {
    ProjectFieldsKeys(sections, FieldOrder);
    assert (set field | field in FieldOrder) == FieldNames;
  }

  /** Each field is the section stored under its key, or "" when there is none. */
  lemma ProjectField(sections: map<string, string>, field: string)
    requires field in FieldNames
    ensures field in Project(sections)
    ensures Project(sections)[field] == Get(sections, SectionKey(field))
  {
    assert field in FieldOrder;
    ProjectFieldsAt(sections, FieldOrder, field);
  }

  /** What `parse_recipe_text` returns for a block. */
  function ParsedRecipe(text: string): (recipe: map<string, string>)
    ensures forall field :: field in recipe ==> field in FieldNames
  {
    Project(Sections(Lines(text)))
  }

  /** `parse_recipe_text`: the single pass over the lines, then the projection. */
  method ParseRecipeText(text: string) returns (recipe: map<string, string>)
    ensures recipe == ParsedRecipe(text)
    ensures recipe.Keys == FieldNames
  {
    var parsed: map<string, string> := map[];
    var lines := Split(Strip(text), '\n');
    var current: Option<string> := None;
    var content: seq<string> := [];
    var i := 0;
    while i < |lines|
      invariant 0 <= i <= |lines|
      invariant ScanLines(Start, lines[..i]) == Scan(parsed, current, content)
    {
      var line := lines[i];
      ghost var before := Scan(parsed, current, content);
      if IsLabelLine(line) {
        if current.Some? && current.value != "" && content != [] {
          parsed := parsed[current.value := Strip(Join("\n", content))];
        }
        current := Some(Key(line));
        content := [Value(line)];
      } else if current.Some? && current.value != "" {
        content := content + [Strip(line)];
      }
      assert Scan(parsed, current, content) == Step(before, line);
      ScanSnoc(lines, i);
      i := i + 1;
    }
    assert lines[..i] == lines;
    if current.Some? && current.value != "" && content != [] {
      parsed := parsed[current.value := Strip(Join("\n", content))];
    }
    recipe := Project(parsed);
    ProjectKeys(parsed);
  }

  /** Scanning one more line is one more step. */
  lemma ScanSnoc(lines: seq<string>, i: nat)
    requires i < |lines|
    ensures ScanLines(Start, lines[..i + 1]) == Step(ScanLines(Start, lines[..i]), lines[i])
  {
    ScanAppend(Start, lines[..i], [lines[i]]);
    assert lines[..i + 1] == lines[..i] + [lines[i]];
  }

  /** Scanning a concatenation is scanning its parts in turn. */
  lemma {:induction false} ScanAppend(st: Scan, a: seq<string>, b: seq<string>)
    ensures ScanLines(st, a + b) == ScanLines(ScanLines(st, a), b)
    decreases |a|
  {
    if a == [] {
      assert a + b == b;
    } else {
      assert (a + b)[0] == a[0];
      assert (a + b)[1..] == a[1..] + b;
      ScanAppend(Step(st, a[0]), a[1..], b);
    }
  }

  /** Lines before the first label line belong to no section. */
  lemma {:induction false} LeadingLinesDropped(pre: seq<string>, rest: seq<string>)
    requires forall i :: 0 <= i < |pre| ==> !IsLabelLine(pre[i])
    ensures Sections(pre + rest) == Sections(rest)
  {
    ScanAppend(Start, pre, rest);
    NoSectionBeforeLabel(pre);
  }

  lemma {:induction false} NoSectionBeforeLabel(pre: seq<string>)
    requires forall i :: 0 <= i < |pre| ==> !IsLabelLine(pre[i])
    ensures ScanLines(Start, pre) == Start
  {
    if pre != [] {
      assert Step(Start, pre[0]) == Start;
      NoSectionBeforeLabel(pre[1..]);
    }
  }

  /** Number of leading lines that are not label lines: the continuation of a section. */
  function ContinuationLength(lines: seq<string>): (n: nat)
    ensures n <= |lines|
    ensures forall i :: 0 <= i < n ==> !IsLabelLine(lines[i])
    ensures n < |lines| ==> IsLabelLine(lines[n])
  {
    if lines == [] || IsLabelLine(lines[0]) then 0 else 1 + ContinuationLength(lines[1..])
  }

  /** Continuation lines are appended, stripped, to the open section. */
  lemma {:induction false} ScanContinuation(st: Scan, lines: seq<string>)
    requires st.current.Some? && st.current.value != ""
    requires forall i :: 0 <= i < |lines| ==> !IsLabelLine(lines[i])
    ensures ScanLines(st, lines) == st.(content := st.content + StripAll(lines))
    decreases |lines|
  {
    if lines == [] {
      assert st.content + StripAll(lines) == st.content;
    } else {
      var next := st.(content := st.content + [Strip(lines[0])]);
      assert Step(st, lines[0]) == next;
      ScanContinuation(next, lines[1..]);
      var x, rest := Strip(lines[0]), StripAll(lines[1..]);
      assert StripAll(lines) == [x] + rest;
      assert (st.content + [x]) + rest == st.content + ([x] + rest);
    }
  }

  /** A stored section survives every later line unless a later label line has its key. */
  lemma {:induction false} StoredSectionKept(st: Scan, lines: seq<string>, key: string)
    requires key in st.parsed && st.current != Some(key)
    requires forall i :: 0 <= i < |lines| ==> IsLabelLine(lines[i]) ==> Key(lines[i]) != key
    ensures key in Flush(ScanLines(st, lines)) && Flush(ScanLines(st, lines))[key] == st.parsed[key]
    decreases |lines|
  {
    if lines != [] {
      StoredSectionKept(Step(st, lines[0]), lines[1..], key);
    }
  }

  /**
   * The value of a section: for the last label line with key `key`, its
   * remainder followed by the continuation lines up to the next label line,
   * stripped and joined by newlines. So a repeated label overwrites the
   * earlier section, and a label line such as `Step 1: Boil water.` closes
   * the section before it.
   */
  lemma {:induction false} SectionValue(pre: seq<string>, head: string, post: seq<string>)
    requires IsLabelLine(head) && Key(head) != ""
    requires forall i :: 0 <= i < |post| ==> IsLabelLine(post[i]) ==> Key(post[i]) != Key(head)
    ensures var n := ContinuationLength(post);
      var sections := Sections(pre + [head] + post);
      Key(head) in sections &&
      sections[Key(head)] == Strip(Join("\n", [Value(head)] + StripAll(post[..n])))
  {
    var key := Key(head);
    var afterLabel := ScanLines(Start, pre + [head]);
    OpenSection(pre, head);
    ScanAppend(Start, pre + [head], post);
    assert pre + [head] + post == (pre + [head]) + post;
    FillSection(afterLabel, post, key);
  }

  /** A label line opens a section holding its remainder. */
  lemma OpenSection(pre: seq<string>, head: string)
    requires IsLabelLine(head)
    ensures ScanLines(Start, pre + [head]) == Scan(Flush(ScanLines(Start, pre)), Some(Key(head)), [Value(head)])
  {
    ScanAppend(Start, pre, [head]);
  }

  /** An open section takes the continuation lines and is stored, and kept, once closed. */
  lemma FillSection(st: Scan, post: seq<string>, key: string)
    requires st.current == Some(key) && key != "" && st.content != []
    requires forall i :: 0 <= i < |post| ==> IsLabelLine(post[i]) ==> Key(post[i]) != key
    ensures var n := ContinuationLength(post);
      var sections := Flush(ScanLines(st, post));
      key in sections && sections[key] == Strip(Join("\n", st.content + StripAll(post[..n])))
  {
    var n := ContinuationLength(post);
    assert post == post[..n] + post[n..];
    ScanAppend(st, post[..n], post[n..]);
    ScanContinuation(st, post[..n]);
    var filled := st.(content := st.content + StripAll(post[..n]));
    assert ScanLines(st, post) == ScanLines(filled, post[n..]);
    CloseSection(filled, post[n..], key);
  }

  /** An open section is stored when the next label line or the end of the block closes it. */
  lemma CloseSection(st: Scan, rest: seq<string>, key: string)
    requires st.current == Some(key) && key != "" && st.content != []
    requires rest == [] || IsLabelLine(rest[0])
    requires forall i :: 0 <= i < |rest| ==> IsLabelLine(rest[i]) ==> Key(rest[i]) != key
    ensures var sections := Flush(ScanLines(st, rest));
      key in sections && sections[key] == Strip(Join("\n", st.content))
  {
    if rest != [] {
      StoredSectionKept(Step(st, rest[0]), rest[1..], key);
    }
  }

  /** A key that no label line normalises to has no section. */
  lemma {:induction false} AbsentSection(st: Scan, lines: seq<string>, key: string)
    requires key !in st.parsed && st.current != Some(key)
    requires forall i :: 0 <= i < |lines| ==> IsLabelLine(lines[i]) ==> Key(lines[i]) != key
    ensures key !in Flush(ScanLines(st, lines))
    decreases |lines|
  {
    if lines != [] {
      AbsentSection(Step(st, lines[0]), lines[1..], key);
    }
  }

  /**
   * A label whose key normalises to "" (such as `/ :`) stores nothing; the
   * lines that follow it, up to the next label line, are discarded.
   */
  lemma {:induction false} EmptyKeyNeverStored(st: Scan, lines: seq<string>)
    requires "" !in st.parsed
    ensures "" !in Flush(ScanLines(st, lines))
    decreases |lines|
  {
    if lines != [] {
      EmptyKeyNeverStored(Step(st, lines[0]), lines[1..]);
    }
  }

  /** A block's title is the `Recipe_Title:` section, from the last label line whose key is `recipe_title`. */
  lemma TitleFromLastLabel(pre: seq<string>, head: string, post: seq<string>)
    requires IsLabelLine(head) && Key(head) == "recipe_title"
    requires forall i :: 0 <= i < |post| ==> IsLabelLine(post[i]) ==> Key(post[i]) != "recipe_title"
    ensures var n := ContinuationLength(post);
      Get(Project(Sections(pre + [head] + post)), "title")
        == Strip(Join("\n", [Value(head)] + StripAll(post[..n])))
  {
    SectionValue(pre, head, post);
    ProjectField(Sections(pre + [head] + post), "title");
  }

  /** A field whose section key no label line produces is "". */
  lemma FieldDefaultsToEmpty(lines: seq<string>, field: string)
    requires field in FieldNames
    requires forall i :: 0 <= i < |lines| ==> IsLabelLine(lines[i]) ==> Key(lines[i]) != SectionKey(field)
    ensures Get(Project(Sections(lines)), field) == ""
  {
    AbsentSection(Start, lines, SectionKey(field));
    ProjectField(Sections(lines), field);
  }

  /** A blank block parses to every field "". */
  lemma BlankBlockIsEmpty(text: string, field: string)
    requires Strip(text) == "" && field in FieldNames
    ensures Get(ParsedRecipe(text), field) == ""
  {
    assert Lines(text) == [""];
    assert !IsLabelLine("");
    FieldDefaultsToEmpty(Lines(text), field);
  }

  /**
   * `Instructions:` followed directly by label-shaped steps such as
   * `Step 1: Boil water.` leaves the instructions field empty.
   */
  lemma InstructionsClosedByStepLine(pre: seq<string>, head: string, post: seq<string>)
    requires IsLabelLine(head) && Key(head) == "instructions" && Value(head) == ""
    requires post != [] && IsLabelLine(post[0])
    requires forall i :: 0 <= i < |post| ==> IsLabelLine(post[i]) ==> Key(post[i]) != "instructions"
    ensures Get(Project(Sections(pre + [head] + post)), "instructions") == ""
  {
    SectionValue(pre, head, post);
    ProjectField(Sections(pre + [head] + post), "instructions");
    assert ContinuationLength(post) == 0;
    assert [Value(head)] + StripAll(post[..0]) == [""];
  }

  /**
   * Lower-casing and deleting spaces and slashes never produce `_`, so a key
   * holds `_` only when its label does.
   */
  lemma UnderscoreKeyNeedsUnderscoreLabel(line: string)
    requires IsLabelLine(line) && '_' !in line[..LabelRun(line)]
    ensures '_' !in Key(line)
  {
    var labelText := line[..LabelRun(line)];
    StripKeepsChars(labelText);
  }

  /**
   * A block whose labels are written without underscores, such as
   * `Recipe Title:`, `Cooking Time:` or `Diet Type:`, fills none of title,
   * cooking_time and diet_type: their section keys hold an underscore.
   */
  lemma SpacedLabelsMissUnderscoreFields(lines: seq<string>)
    requires forall i :: 0 <= i < |lines| ==> IsLabelLine(lines[i]) ==> '_' !in lines[i][..LabelRun(lines[i])]
    ensures var recipe := Project(Sections(lines));
      Get(recipe, "title") == "" && Get(recipe, "cooking_time") == "" && Get(recipe, "diet_type") == ""
  {
    forall i | 0 <= i < |lines| && IsLabelLine(lines[i])
      ensures '_' !in Key(lines[i])
    {
      UnderscoreKeyNeedsUnderscoreLabel(lines[i]);
    }
    assert "recipe_title"[6] == '_' && "cooking_time"[7] == '_' && "diet_type"[4] == '_';
    AbsentSection(Start, lines, "recipe_title");
    AbsentSection(Start, lines, "cooking_time");
    AbsentSection(Start, lines, "diet_type");
    ProjectField(Sections(lines), "title");
    ProjectField(Sections(lines), "cooking_time");
    ProjectField(Sections(lines), "diet_type");
  }
}
