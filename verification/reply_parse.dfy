/**
 The line-prefix parser every language strategy applies to an LLM reply of
 the form "<definition label> …\n<phonetic label> …": strip the reply, split
 it into lines, and scan them in order, an `if`/`elif` on the two labels.
 */
module ReplyParse {
  import opened Wrappers
  import opened PyStr

  /** The two line labels a strategy looks for. */
  datatype Labels = Labels(definition: string, phonetic: string)

  /** The two parsed fields; both start out as `""`. */
  datatype Parsed = Parsed(definition: string, phonetic: string)

  const EnglishLabels := Labels("Definition:", "Phonetic:")
  /** Cantonese: "explanation" and "Jyutping", with full-width colons. */
  const CantoneseLabels := Labels("解释：", "粤拼：")
  /** Sichuanese: "explanation" and "phonetic transcription", with full-width colons. */
  const SichuaneseLabels := Labels("解释：", "音标：")

  /** Which of the two fields a line sets. */
  datatype Field = DefinitionField | PhoneticField

  /** The line sets the field: a definition line starts with its label; a
      phonetic line starts with its label and is not a definition line
      (the `elif`). */
  predicate Sets(line: string, labels: Labels, f: Field) {
    match f
    case DefinitionField => StartsWith(line, labels.definition)
    case PhoneticField => !StartsWith(line, labels.definition) && StartsWith(line, labels.phonetic)
  }

  function Label(labels: Labels, f: Field): string {
    match f
    case DefinitionField => labels.definition
    case PhoneticField => labels.phonetic
  }

  /** `line.replace(tag, "").strip()`. */
  function FieldValue(line: string, tag: string): string {
    Strip(RemoveAll(line, tag))
  }

  /** One iteration of the scan. */
  function Step(acc: Parsed, line: string, labels: Labels): Parsed {
    if StartsWith(line, labels.definition) then acc.(definition := FieldValue(line, labels.definition))
    else if StartsWith(line, labels.phonetic) then acc.(phonetic := FieldValue(line, labels.phonetic))
    else acc
  }

  /** The scan over `lines`, in order, from two empty fields. */
  function ScanLines(lines: seq<string>, labels: Labels): Parsed {
    if |lines| == 0 then Parsed("", "")
    else Step(ScanLines(lines[..|lines| - 1], labels), lines[|lines| - 1], labels)
  }

  /** The index of the last line that sets field `f`, if any. */
  function LastSetter(lines: seq<string>, labels: Labels, f: Field): (r: Option<nat>)
    ensures r.Some? ==> r.value < |lines| && Sets(lines[r.value], labels, f)
    ensures r.Some? ==> forall j :: r.value < j < |lines| ==> !Sets(lines[j], labels, f)
    ensures r.None? ==> forall j :: 0 <= j < |lines| ==> !Sets(lines[j], labels, f)
  {
    if |lines| == 0 then None
    else if Sets(lines[|lines| - 1], labels, f) then Some(|lines| - 1)
    else LastSetter(lines[..|lines| - 1], labels, f)
  }

  /** The reference meaning of the parse: a field holds the cleaned text of
      the last line that sets it, and `""` when no line does. */
  function LastValue(lines: seq<string>, labels: Labels, f: Field): string {
    match LastSetter(lines, labels, f)
    case None => ""
    case Some(i) => FieldValue(lines[i], Label(labels, f))
  }

  function Get(p: Parsed, f: Field): string {
    match f
    case DefinitionField => p.definition
    case PhoneticField => p.phonetic
  }

  /** The in-order scan computes, for each field, the last line that sets it. */
  lemma {:induction false} ScanIsLastMatch(lines: seq<string>, labels: Labels, f: Field)
    ensures Get(ScanLines(lines, labels), f) == LastValue(lines, labels, f)
    decreases |lines|
  {
    if |lines| > 0 {
      var init := lines[..|lines| - 1];
      ScanIsLastMatch(init, labels, f);
      var last := lines[|lines| - 1];
      if !Sets(last, labels, f) {
        assert LastSetter(lines, labels, f) == LastSetter(init, labels, f);
        match LastSetter(init, labels, f)
        case None =>
        case Some(i) => assert lines[i] == init[i];
      }
    }
  }

  /** `response.strip().split('\n')` scanned for the two labels. */
  function ParseReply(reply: string, labels: Labels): (p: Parsed)
    ensures var lines := Split(Strip(reply), '\n');
            && p.definition == LastValue(lines, labels, DefinitionField)
            && p.phonetic == LastValue(lines, labels, PhoneticField)
  {
    var lines := Split(Strip(reply), '\n');
    ScanIsLastMatch(lines, labels, DefinitionField);
    ScanIsLastMatch(lines, labels, PhoneticField);
    ScanLines(lines, labels)
  }

  /** Neither label is a prefix of the other, so no line starts with both. */
  predicate Separate(labels: Labels) {
    !StartsWith(labels.definition, labels.phonetic) && !StartsWith(labels.phonetic, labels.definition)
  }

  /** A line that starts with `a` does not start with `b` when neither of
      `a` and `b` is a prefix of the other. */
  lemma PrefixExcludes(line: string, a: string, b: string)
    requires !StartsWith(a, b) && !StartsWith(b, a)
    requires StartsWith(line, a)
    ensures !StartsWith(line, b)
  {
    if |b| <= |a| {
      assert line[..|b|] == a[..|b|];
    } else if |b| <= |line| {
      assert line[..|b|][..|a|] == a;
    }
  }

  /** With separate labels the `elif` never hides a phonetic line: a line sets
      a field exactly when it starts with that field's label. */
  lemma SeparateLabelsSet(line: string, labels: Labels, f: Field)
    requires Separate(labels)
    ensures Sets(line, labels, f) <==> StartsWith(line, Label(labels, f))
  {
    if StartsWith(line, labels.phonetic) {
      PrefixExcludes(line, labels.phonetic, labels.definition);
    }
  }

  /** The three label pairs in use are all separate. */
  lemma LabelsInUseSeparate()
    ensures Separate(EnglishLabels)
    ensures Separate(CantoneseLabels)
    ensures Separate(SichuaneseLabels)
  {
    assert EnglishLabels.phonetic[0] != EnglishLabels.definition[0];
    assert CantoneseLabels.phonetic[0] != CantoneseLabels.definition[0];
    assert SichuaneseLabels.phonetic[0] != SichuaneseLabels.definition[0];
  }

  /** The reply layout every definition prompt asks for: the definition
      line, then the phonetic line, each a label, a blank and the value. */
  function FormatReply(labels: Labels, p: Parsed): string {
    labels.definition + " " + p.definition + "\n" + labels.phonetic + " " + p.phonetic
  }

  /** A label that can head a line: non-empty, one line, no whitespace at its ends. */
  predicate LineLabel(tag: string) {
    |tag| > 0 && '\n' !in tag && Trimmed(tag)
  }

  predicate WellFormed(labels: Labels) {
    Separate(labels) && LineLabel(labels.definition) && LineLabel(labels.phonetic)
  }

  /** A value the layout carries intact: one line, no whitespace at its ends,
      and no label inside it (or straddling the blank before it). */
  predicate Clean(v: string, labels: Labels) {
    && '\n' !in v
    && Trimmed(v)
    && !Contains(" " + v, labels.definition)
    && !Contains(" " + v, labels.phonetic)
  }

  /** The value of a labelled line is the value written after the label. */
  lemma FieldOfLine(tag: string, v: string)
    requires |tag| > 0 && Trimmed(v) && !Contains(" " + v, tag)
    ensures FieldValue(tag + " " + v, tag) == v
  {
    var line := tag + " " + v;
    assert line[..|tag|] == tag;
    assert line[|tag|..] == " " + v;
    RemoveAllAbsent(" " + v, tag);
    StripLeadingBlank(v);
  }

  /** A phonetic label left alone on its line (its value empty and stripped off) yields `""`. */
  lemma FieldOfBareLabel(tag: string)
    requires |tag| > 0
    ensures FieldValue(tag, tag) == ""
  {
    assert StartsWith(tag, tag) by { assert tag[..|tag|] == tag; }
    assert tag[|tag|..] == [];
    assert RemoveAll(tag, tag) == RemoveAll([], tag);
    assert RemoveAll(tag, tag) == [];
    StripTrimmed([]);
  }

  /** The second line of a formatted reply once `strip` has removed the
      blank a missing phonetic leaves at the end. */
  function SecondLine(labels: Labels, p: Parsed): string {
    if p.phonetic == [] then labels.phonetic else labels.phonetic + " " + p.phonetic
  }

  /** `strip` leaves a formatted reply as its two lines joined. */
  lemma StripFormatted(labels: Labels, p: Parsed)
    requires LineLabel(labels.definition) && LineLabel(labels.phonetic) && Trimmed(p.phonetic)
    ensures Strip(FormatReply(labels, p)) == labels.definition + " " + p.definition + "\n" + SecondLine(labels, p)
  {
    var second := SecondLine(labels, p);
    var body := labels.definition + " " + p.definition + "\n" + second;
    assert |second| > 0 && !IsSpace(second[|second| - 1]) by {
      if p.phonetic != [] {
        assert second[|second| - 1] == p.phonetic[|p.phonetic| - 1];
      }
    }
    assert body[0] == labels.definition[0];
    assert body[|body| - 1] == second[|second| - 1];
    assert Trimmed(body);
    if p.phonetic == [] {
      assert FormatReply(labels, p) == body + " ";
      StripTrailingBlank(body);
    } else {
      var head := labels.definition + " " + p.definition + "\n";
      assert second == labels.phonetic + " " + p.phonetic;
      ConcatRegroup(head, labels.phonetic, " ", p.phonetic);
      assert FormatReply(labels, p) == body;
      StripTrimmed(body);
    }
  }

  /** The two lines of a formatted reply, as the parser sees them after `strip`. */
  lemma FormattedLines(labels: Labels, p: Parsed)
    requires WellFormed(labels) && Clean(p.definition, labels) && Clean(p.phonetic, labels)
    ensures Split(Strip(FormatReply(labels, p)), '\n') == [labels.definition + " " + p.definition, SecondLine(labels, p)]
  {
    var first := labels.definition + " " + p.definition;
    var second := SecondLine(labels, p);
    StripFormatted(labels, p);
    assert JoinBy([first, second], '\n') == first + "\n" + second;
    assert '\n' !in first;
    assert '\n' !in second;
    SplitJoin([first, second], '\n');
  }

  /** Parsing a reply laid out as the prompts ask gives back the two values. */
  lemma ParseFormatted(labels: Labels, p: Parsed)
    requires WellFormed(labels) && Clean(p.definition, labels) && Clean(p.phonetic, labels)
    ensures ParseReply(FormatReply(labels, p), labels) == p
  {
    var first := labels.definition + " " + p.definition;
    var second := SecondLine(labels, p);
    FormattedLines(labels, p);
    var lines := [first, second];
    assert first[..|labels.definition|] == labels.definition;
    assert second[..|labels.phonetic|] == labels.phonetic;
    PrefixExcludes(second, labels.phonetic, labels.definition);
    assert Sets(first, labels, DefinitionField);
    assert !Sets(second, labels, DefinitionField);
    assert Sets(second, labels, PhoneticField);
    assert LastSetter(lines, labels, DefinitionField) == Some(0) by {
      assert lines[..1] == [first];
    }
    assert LastSetter(lines, labels, PhoneticField) == Some(1);
    FieldOfLine(labels.definition, p.definition);
    if p.phonetic == [] {
      FieldOfBareLabel(labels.phonetic);
    } else {
      FieldOfLine(labels.phonetic, p.phonetic);
    }
  }

  /** The three label pairs in use can head lines. */
  lemma LabelsInUseWellFormed()
    ensures WellFormed(EnglishLabels) && WellFormed(CantoneseLabels) && WellFormed(SichuaneseLabels)
  {
    LabelsInUseSeparate();
    LineLabelOfLiteral("Definition:");
    LineLabelOfLiteral("Phonetic:");
    LineLabelOfLiteral("解释：");
    LineLabelOfLiteral("粤拼：");
    LineLabelOfLiteral("音标：");
  }

  /** A label whose characters are all printable, non-blank characters can head a line. */
  lemma LineLabelOfLiteral(tag: string)
    requires |tag| > 0
    requires forall i :: 0 <= i < |tag| ==> (' ' < tag[i] < '\U{7F}') || tag[i] > '\U{3000}'
    ensures LineLabel(tag)
  {
    assert '\n' !in tag by {
      forall i | 0 <= i < |tag| ensures tag[i] != '\n' { }
    }
  }

  /** A reply in which no line carries a label parses to two empty fields. */
  lemma UnlabelledReply(reply: string, labels: Labels)
    requires forall line :: line in Split(Strip(reply), '\n') ==>
               !StartsWith(line, labels.definition) && !StartsWith(line, labels.phonetic)
    ensures ParseReply(reply, labels) == Parsed("", "")
  {
  }
}
