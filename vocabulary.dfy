/** The vocabulary: the built-in word list and the per-line parsing of
    `loadDictionaryFromFile`, which replaces the list with the entries of a
    `words.txt` file, one `<english><whitespace><chinese>` record per line. */
module Vocabulary {
  import opened Text

  datatype Option<T> = None | Some(value: T)

  /** A question: the answer to type and the prompt shown. */
  datatype Word = Word(english: string, chinese: string)

  /** The built-in dictionary, used when no file entry is loaded. */
  const Builtin: seq<Word> := [
    Word("apple", "蘋果"), Word("banana", "香蕉"), Word("orange", "橘子"),
    Word("computer", "電腦"), Word("keyboard", "鍵盤"), Word("mouse", "滑鼠"),
    Word("program", "程式"), Word("developer", "開發者"), Word("algorithm", "演算法"),
    Word("university", "大學"), Word("student", "學生"), Word("library", "圖書館"),
    Word("adventure", "冒險"), Word("warrior", "戰士"), Word("dragon", "龍")
  ]

  predicate AllSpace(s: string) {
    forall k :: 0 <= k < |s| ==> IsSpace(s[k])
  }

  predicate NoSpace(s: string) {
    forall k :: 0 <= k < |s| ==> !IsSpace(s[k])
  }

  predicate AllBlank(s: string) {
    forall k :: 0 <= k < |s| ==> IsBlank(s[k])
  }

  /** An entry as a file line can carry it and a record written back would reproduce it:
      a non-empty answer token, and a prompt that does not start with a space or tab. */
  predicate WellFormed(w: Word) {
    |w.english| > 0 && NoSpace(w.english) && |w.chinese| > 0 && !IsBlank(w.chinese[0])
  }

  /** The record a well-formed entry is written as. */
  function Format(w: Word): string {
    w.english + " " + w.chinese
  }

  /** Where `>>` starts reading: the first non-space at or after `i`. */
  function SkipSpaces(s: string, i: nat): (j: nat)
    requires i <= |s|
    ensures i <= j <= |s|
    ensures AllSpace(s[i..j])
    ensures j < |s| ==> !IsSpace(s[j])
    decreases |s| - i
  {
    if i == |s| || !IsSpace(s[i]) then i else SkipSpaces(s, i + 1)
  }

  /** Where `>>` stops reading: the first space at or after `i`. */
  function TokenEnd(s: string, i: nat): (j: nat)
    requires i <= |s|
    ensures i <= j <= |s|
    ensures NoSpace(s[i..j])
    ensures j < |s| ==> IsSpace(s[j])
    decreases |s| - i
  {
    if i == |s| || IsSpace(s[i]) then i else TokenEnd(s, i + 1)
  }

  /** `find_first_not_of(" \t")`, with `|s|` standing for `npos`. */
  function LeadingBlanks(s: string): (n: nat)
    ensures n <= |s|
    ensures AllBlank(s[..n])
    ensures n < |s| ==> !IsBlank(s[n])
  {
    if s == [] || !IsBlank(s[0]) then 0
    else
      var m := LeadingBlanks(s[1..]);
      assert s[..m + 1] == [s[0]] + s[1..][..m];
      m + 1
  }

  /** `ss >> en; getline(ss, zh)`: the first whitespace-delimited token and
      everything after it, or None when the line holds no token. */
  function Split(line: string): (r: Option<(string, string)>)
    ensures r.None? <==> AllSpace(line)
    ensures r.Some? ==>
              var (en, zh) := r.value;
              var p := |line| - |en| - |zh|;
              |en| > 0 && NoSpace(en) && (zh == [] || IsSpace(zh[0])) &&
              0 <= p && line[p..] == en + zh && AllSpace(line[..p])
  {
    var start := SkipSpaces(line, 0);
    var stop := TokenEnd(line, start);
    if start == stop then None
    else
      assert line[stop..] == line[start..][stop - start..];
      assert line[start..] == line[start..stop] + line[stop..];
      Some((line[start..stop], line[stop..]))
  }

  /** The prompt as lines 238-240 compute it: leading spaces and tabs go,
      unless nothing but spaces and tabs is left, in which case the text
      stays as it was; only an empty text becomes "?". */
  function PromptAsWritten(zh: string): (p: string)
    ensures zh == [] ==> p == "?"
    ensures zh != [] && AllBlank(zh) ==> p == zh
    ensures !AllBlank(zh) ==> |p| <= |zh| && zh[|zh| - |p|..] == p && AllBlank(zh[..|zh| - |p|]) && !IsBlank(p[0])
  {
    var n := LeadingBlanks(zh);
    var stripped := if n < |zh| then zh[n..] else zh;
    if stripped == [] then "?" else stripped
  }

  /** The prompt as intended: leading spaces and tabs go, and a text with
      nothing else in it becomes "?". */
  function Prompt(zh: string): (p: string)
    ensures |p| > 0 && !IsBlank(p[0])
    ensures AllBlank(zh) ==> p == "?"
    ensures !AllBlank(zh) ==> |p| <= |zh| && zh[|zh| - |p|..] == p && AllBlank(zh[..|zh| - |p|])
  {
    var stripped := zh[LeadingBlanks(zh)..];
    if stripped == [] then "?" else stripped
  }

  /** One line of the file, parsed as lines 231-241 do. */
  function ParseLineAsWritten(line: string): (r: Option<Word>)
    ensures r.None? <==> AllSpace(line)
    ensures r.Some? ==> |r.value.english| > 0 && NoSpace(r.value.english) && |r.value.chinese| > 0
  {
    if line == [] then None
    else match Split(line)
      case None => None
      case Some((en, zh)) => Some(Word(en, PromptAsWritten(zh)))
  }

  /** One line of the file, parsed with the intended prompt rule. */
  function ParseLine(line: string): (r: Option<Word>)
    ensures r.None? <==> AllSpace(line)
    ensures r.Some? ==> WellFormed(r.value)
  {
    if line == [] then None
    else match Split(line)
      case None => None
      case Some((en, zh)) => Some(Word(en, Prompt(zh)))
  }

  /** The two parses differ exactly on a line whose text after the token is
      non-empty and made of spaces and tabs only. */
  lemma AsWrittenDiffersOnBlankTail(line: string)
    ensures ParseLine(line) != ParseLineAsWritten(line) <==>
              Split(line).Some? && Split(line).value.1 != [] && AllBlank(Split(line).value.1)
  {
    if line != [] && Split(line).Some? {
      var zh := Split(line).value.1;
      if zh != [] && AllBlank(zh) {
        assert PromptAsWritten(zh) == zh != "?" == Prompt(zh) by {
          assert IsBlank(zh[0]);
        }
      }
    }
  }

  /** The record `"apple  "` (answer, then two spaces) as written gets the
      two spaces as its prompt, and a file of that one line loads it so; the
      intended parse gives "?". */
  lemma BlankTailExample()
    ensures ParseLineAsWritten("apple  ") == Some(Word("apple", "  "))
    ensures ParseLine("apple  ") == Some(Word("apple", "?"))
    ensures EntriesAsWritten(["apple  "]) == [Word("apple", "  ")]
    ensures Entries(["apple  "]) == [Word("apple", "?")]
  {
    var line := "apple  ";
    assert TokenEnd(line, 0) == 5 by {
      assert line[0..5] == "apple";
      assert IsSpace(line[5]);
    }
    assert SkipSpaces(line, 0) == 0 by {
      assert !IsSpace(line[0]);
    }
    assert Split(line) == Some((line[0..5], line[5..]));
    assert line[0..5] == "apple" && line[5..] == "  ";
    assert LeadingBlanks("  ") == 2 by {
      assert "  "[1..] == " ";
    }
    var file: seq<string> := [line];
    assert file[1..] == [];
  }

  /** A well-formed entry written as a record parses back to itself. */
  lemma ParseFormatted(w: Word)
    requires WellFormed(w)
    ensures ParseLine(Format(w)) == Some(w)
  {
    var line := Format(w);
    var en := w.english;
    assert line[..|en|] == en;
    assert SkipSpaces(line, 0) == 0 by {
      assert line[0] == en[0];
    }
    var stop := TokenEnd(line, 0);
    assert line[|en|] == ' ';
    assert line[0..|en|] == en;
    assert stop == |en|;
    var zh := line[stop..];
    assert zh == " " + w.chinese;
    assert LeadingBlanks(zh) == 1 by {
      assert zh[1] == w.chinese[0];
      assert zh[..1] == " ";
    }
    assert zh[1..] == w.chinese;
  }

  /** The entries a line contributes: none, or its parse. */
  function LineEntries(line: string): seq<Word>
  {
    if line == [] then []
    else match ParseLine(line)
      case None => []
      case Some(w) => [w]
  }

  /** The entries of a whole file, in order. */
  function Entries(lines: seq<string>): (ws: seq<Word>)
    ensures |ws| <= |lines|
    ensures forall w :: w in ws ==> WellFormed(w)
  {
    if lines == [] then [] else LineEntries(lines[0]) + Entries(lines[1..])
  }

  lemma {:induction false} EntriesAppend(a: seq<string>, b: seq<string>)
    ensures Entries(a + b) == Entries(a) + Entries(b)
  {
    if a == [] {
      assert a + b == b;
    } else {
      assert (a + b)[1..] == a[1..] + b;
      EntriesAppend(a[1..], b);
    }
  }

  /** A file holding one record and one line of nothing but whitespace
      yields exactly that record. */
  lemma MalformedLineSkipped(good: Word, bad: string)
    requires WellFormed(good) && AllSpace(bad)
    ensures Entries([Format(good), bad]) == [good]
  {
    var lines := [Format(good), bad];
    ParseFormatted(good);
    assert LineEntries(lines[0]) == [good];
    assert LineEntries(lines[1]) == [];
    assert lines[1..][1..] == [];
  }

  /** The dictionary after a load: the file's entries if there are any, else the old list. */
  function Reloaded(current: seq<Word>, file: Option<seq<string>>): (r: seq<Word>)
    ensures file.Some? && Entries(file.value) != [] ==> r == Entries(file.value)
    ensures file.None? || Entries(file.value) == [] ==> r == current
    ensures |current| > 0 ==> |r| > 0
  {
    if file.Some? && Entries(file.value) != [] then Entries(file.value) else current
  }

  /** The entries a line contributes as the code parses it. */
  function LineEntriesAsWritten(line: string): seq<Word>
  {
    match ParseLineAsWritten(line)
    case None => []
    case Some(w) => [w]
  }

  /** The entries of a whole file as lines 230-242 collect them, in order. */
  function EntriesAsWritten(lines: seq<string>): (ws: seq<Word>)
    ensures |ws| <= |lines|
    ensures forall w :: w in ws ==> |w.english| > 0 && NoSpace(w.english) && |w.chinese| > 0
  {
    if lines == [] then [] else LineEntriesAsWritten(lines[0]) + EntriesAsWritten(lines[1..])
  }

  lemma {:induction false} EntriesAsWrittenAppend(a: seq<string>, b: seq<string>)
    ensures EntriesAsWritten(a + b) == EntriesAsWritten(a) + EntriesAsWritten(b)
  {
    if a == [] {
      assert a + b == b;
    } else {
      assert (a + b)[1..] == a[1..] + b;
      EntriesAsWrittenAppend(a[1..], b);
    }
  }

  /** The answers of a list of entries, in order. */
  function Answers(ws: seq<Word>): seq<string>
  {
    seq(|ws|, i requires 0 <= i < |ws| => ws[i].english)
  }

  /** The two parses of a line give an entry for the same lines, with the same answer. */
  lemma ParsesAgreeOnAnswers(line: string)
    ensures ParseLineAsWritten(line).Some? <==> ParseLine(line).Some?
    ensures ParseLine(line).Some? ==> ParseLineAsWritten(line).value.english == ParseLine(line).value.english
  {
  }

  lemma AnswersAppend(a: seq<Word>, b: seq<Word>)
    ensures Answers(a + b) == Answers(a) + Answers(b)
  {
    assert |Answers(a + b)| == |Answers(a) + Answers(b)|;
    forall i | 0 <= i < |a + b|
      ensures Answers(a + b)[i] == (Answers(a) + Answers(b))[i]
    {
      if i < |a| {
        assert (a + b)[i] == a[i];
      } else {
        assert (a + b)[i] == b[i - |a|];
      }
    }
  }

  lemma LineEntriesAgreeOnAnswers(line: string)
    ensures Answers(LineEntriesAsWritten(line)) == Answers(LineEntries(line))
  {
    ParsesAgreeOnAnswers(line);
    if ParseLine(line).Some? {
      assert line != [];
    }
  }

  /** A whole file loads the same answers, in the same order, under either parse;
      only prompts with a blank tail differ. */
  lemma {:induction false} EntriesAgreeOnAnswers(lines: seq<string>)
    ensures Answers(EntriesAsWritten(lines)) == Answers(Entries(lines))
    ensures |EntriesAsWritten(lines)| == |Entries(lines)|
  {
    if lines != [] {
      EntriesAgreeOnAnswers(lines[1..]);
      LineEntriesAgreeOnAnswers(lines[0]);
      AnswersAppend(LineEntriesAsWritten(lines[0]), EntriesAsWritten(lines[1..]));
      AnswersAppend(LineEntries(lines[0]), Entries(lines[1..]));
    }
    assert |Answers(EntriesAsWritten(lines))| == |EntriesAsWritten(lines)|;
    assert |Answers(Entries(lines))| == |Entries(lines)|;
  }

  /** The dictionary after `loadDictionaryFromFile` as written: the file's
      entries if there are any, else the old list. */
  function ReloadedAsWritten(current: seq<Word>, file: Option<seq<string>>): (r: seq<Word>)
    ensures file.Some? && EntriesAsWritten(file.value) != [] ==> r == EntriesAsWritten(file.value)
    ensures file.None? || EntriesAsWritten(file.value) == [] ==> r == current
    ensures |current| > 0 ==> |r| > 0
  {
    if file.Some? && EntriesAsWritten(file.value) != [] then EntriesAsWritten(file.value) else current
  }

  /** The code's load and the intended one keep or replace the list in the
      same cases and leave the same answers. */
  lemma ReloadsAgreeOnAnswers(current: seq<Word>, file: Option<seq<string>>)
    ensures (file.Some? && EntriesAsWritten(file.value) != []) <==> (file.Some? && Entries(file.value) != [])
    ensures Answers(ReloadedAsWritten(current, file)) == Answers(Reloaded(current, file))
  {
    if file.Some? {
      EntriesAgreeOnAnswers(file.value);
    }
  }

  /** The global `dictionary`. */
  class Lexicon {
    var words: seq<Word>

    constructor ()
      ensures words == Builtin
    {
      words := Builtin;
    }

    /** `loadDictionaryFromFile`: `file` is None when the file cannot be opened,
        else the lines `getline` reads from it. */
    method Load(file: Option<seq<string>>)
      modifies this
      ensures words == ReloadedAsWritten(old(words), file)
      ensures old(|words|) > 0 ==> |words| > 0
    {
      if file.None? {
        return;
      }
      var lines := file.value;
      var loaded: seq<Word> := [];
      var i := 0;
      while i < |lines|
        invariant 0 <= i <= |lines|
        invariant loaded == EntriesAsWritten(lines[..i])
        invariant words == old(words)
      {
        var line := lines[i];
        assert lines[..i + 1] == lines[..i] + [line];
        EntriesAsWrittenAppend(lines[..i], [line]);
        assert EntriesAsWritten([line]) == LineEntriesAsWritten(line);
        if line != [] {
          match ParseLineAsWritten(line)
          case Some(w) =>
            loaded := loaded + [w];
          case None =>
        }
        i := i + 1;
      }
      assert lines[..|lines|] == lines;
      assert loaded == EntriesAsWritten(file.value);
      if loaded != [] {
        words := loaded;
      }
    }
  }
}
