/** The JSONL document persisted for each part, written once and validated on every load. */
module PayloadDocument {
  import opened Bytes
  import opened Delimited
  import opened Sequences

  /** Decoded `jsonb`: either the expected two-member object with a string and an integer, or anything else. */
  datatype Content = Document(text: string, lineCount: int) | OtherJson

  /** `"\n".join(lines)`. */
  function Joined(lines: seq<string>): string {
    if lines == [] then ""
    else if |lines| == 1 then lines[0]
    else lines[0] + "\n" + Joined(lines[1..])
  }

  function Write(lines: seq<string>): Content {
    Document(Joined(lines) + (if lines != [] then "\n" else ""), |lines|)
  }

  /** Returns the stored text, or refuses a document that is not canonical. */
  function Load(content: Content, canonical: string -> bool): Option<string> {
    match content
    case OtherJson => None
    case Document(text, lineCount) =>
      if lineCount < 0 then None
      else if lineCount == 0 then if text == "" then Some(text) else None
      else if text == "" || text[|text| - 1] != '\n' then None
      else
        var lines := Split(text[..|text| - 1], '\n');
        if |lines| == lineCount && forall i :: 0 <= i < |lines| ==> lines[i] != "" && canonical(lines[i])
        then Some(text) else None
  }

  /** The lines a loaded text is later read as. */
  function LinesOf(text: string): seq<string> {
    if text == "" then [] else Split(text[..|text| - 1], '\n')
  }

  /** Lines a writer may hand over: non-empty, free of newlines, each a canonical JSON object. */
  ghost predicate Writable(lines: seq<string>, canonical: string -> bool) {
    Clean(lines, '\n') && forall i :: 0 <= i < |lines| ==> lines[i] != "" && canonical(lines[i])
  }

  lemma {:induction false} JoinedIsTerminated(lines: seq<string>)
    requires lines != []
    ensures Joined(lines) + "\n" == Terminated(lines, '\n')
  {
    if |lines| > 1 {
      JoinedIsTerminated(lines[1..]);
      assert lines[0] + "\n" + Joined(lines[1..]) + "\n" == lines[0] + "\n" + (Joined(lines[1..]) + "\n");
    } else {
      assert lines[1..] == [];
    }
  }

  lemma SplitSnoc(lines: seq<string>)
    requires lines != [] && Clean(lines, '\n')
    ensures var text := Terminated(lines, '\n');
            text != "" && text[|text| - 1] == '\n' && Split(text[..|text| - 1], '\n') == lines
  {
    var k := |lines| - 1;
    var before, last := lines[..k], lines[k];
    assert lines == before + [last] && [last][1..] == [];
    TerminatedAppend(before, [last], '\n');
    var text := Terminated(lines, '\n');
    assert text == Terminated(before, '\n') + last + ['\n'];
    SplitAfterLines(before, '\n', last);
    CleanIsOnePiece(last);
    assert text[..|text| - 1] == Terminated(before, '\n') + last;
  }

  lemma CleanIsOnePiece(line: string)
    requires '\n' !in line
    ensures Split(line, '\n') == [line]
  {
    assert forall i :: 0 <= i < |line| ==> line[i] in line;
  }

  /** Whatever a writer persists is accepted, with the same text and the same lines. */
  lemma WrittenLoads(lines: seq<string>, canonical: string -> bool)
    requires Writable(lines, canonical)
    ensures Load(Write(lines), canonical) == Some(Write(lines).text)
    ensures LinesOf(Write(lines).text) == lines
  {
    if lines != [] {
      JoinedIsTerminated(lines);
      SplitSnoc(lines);
    }
  }

  lemma SplitText(body: string)
    ensures var lines := Split(body, '\n'); Clean(lines, '\n') && Joined(lines) + "\n" == body + ['\n']
  {
    var lines := Split(body, '\n');
    SplitRestores(body, '\n');
    SplitClean(body, '\n');
    var before, last := lines[..|lines| - 1], lines[|lines| - 1];
    assert lines == before + [last] && [last][1..] == [];
    TerminatedAppend(before, [last], '\n');
    assert Terminated([last], '\n') == last + ['\n'];
    JoinedIsTerminated(lines);
    Associative(Terminated(before, '\n'), last, ['\n']);
  }

  /** Whatever is accepted was written from exactly one list of lines. */
  lemma LoadedWasWritten(content: Content, canonical: string -> bool)
    requires Load(content, canonical).Some?
    ensures var lines := LinesOf(Load(content, canonical).value);
            && Writable(lines, canonical) && content == Write(lines)
            && forall other :: Writable(other, canonical) && Write(other) == content ==> other == lines
  {
    var text := content.text;
    var lines := LinesOf(text);
    if text != "" {
      SplitText(text[..|text| - 1]);
      assert text[..|text| - 1] + ['\n'] == text;
    }
    forall other | Writable(other, canonical) && Write(other) == content
      ensures other == lines
    {
      WrittenLoads(other, canonical);
    }
  }
}
