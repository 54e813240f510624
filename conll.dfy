/** Reading and writing sentences in the CONLL format of data.py: one
    `token<TAB>label` line per token, a blank line after each sentence.
    Files are modelled as their text; `readlines` as the function that cuts
    a text after each newline. */
module Conll {

  datatype Option<T> = None | Some(value: T)

  /** What `read_file` returns, or the line on which `token, label =
      line.split()` fails because it does not hold exactly two fields. */
  datatype Result<T> = Ok(value: T) | Malformed(line: string)

  /** The two parallel lists `read_file` returns. */
  datatype Corpus = Corpus(sents: seq<seq<string>>, labels: seq<seq<string>>)

  // ---------------------------------------------------------------------------
  // Python 2 whitespace: `str.strip()` and `str.split()` with no argument

  /** The ASCII whitespace of a Python 2 byte string. */
  predicate IsSpace(c: char)
  {
    c == ' ' || c == '\t' || c == '\n' || c == '\r' || c == '\U{000B}' || c == '\U{000C}'
  }

  /** `len(line.strip()) == 0`: the line holds whitespace only. */
  predicate Blank(line: string)
  {
    forall k :: 0 <= k < |line| ==> IsSpace(line[k])
  }

  /** A token or label as the reader can give it back: non-empty and free
      of whitespace. */
  predicate IsWord(w: string)
  {
    |w| > 0 && forall k :: 0 <= k < |w| ==> !IsSpace(w[k])
  }

  /** `s.split()`, having already collected the partial field `cur`: runs
      of whitespace separate fields, and no field is empty. */
  function SplitFrom(s: string, cur: string): (fields: seq<string>)
    requires forall k :: 0 <= k < |cur| ==> !IsSpace(cur[k])
    ensures forall i :: 0 <= i < |fields| ==> IsWord(fields[i])
    decreases |s|
  {
    if |s| == 0 then (if |cur| == 0 then [] else [cur])
    else if IsSpace(s[0]) then
      (if |cur| == 0 then [] else [cur]) + SplitFrom(s[1..], [])
    else SplitFrom(s[1..], cur + [s[0]])
  }

  /** `line.split()`: the whitespace-separated fields of `line`. */
  function Split(line: string): (fields: seq<string>)
    ensures forall i :: 0 <= i < |fields| ==> IsWord(fields[i])
  {
    SplitFrom(line, [])
  }

  /** A line splits into no fields exactly when it is blank. */
  lemma {:induction false} SplitEmptyIffBlank(line: string)
    ensures |Split(line)| == 0 <==> Blank(line)
  {
    SplitFromEmpty(line, []);
  }

  lemma {:induction false} SplitFromEmpty(s: string, cur: string)
    requires forall k :: 0 <= k < |cur| ==> !IsSpace(cur[k])
    ensures |SplitFrom(s, cur)| == 0 <==> |cur| == 0 && Blank(s)
    decreases |s|
  {
    if |s| > 0 {
      if IsSpace(s[0]) {
        SplitFromEmpty(s[1..], []);
        assert Blank(s) <==> Blank(s[1..]) by {
          assert forall k :: 0 < k < |s| ==> s[k] == s[1..][k - 1];
        }
      } else {
        SplitFromEmpty(s[1..], cur + [s[0]]);
        assert !Blank(s);
      }
    }
  }

  /** Reading a word continues the field being collected. */
  lemma {:induction false} SplitFromWord(w: string, rest: string, cur: string)
    requires forall k :: 0 <= k < |cur| ==> !IsSpace(cur[k])
    requires forall k :: 0 <= k < |w| ==> !IsSpace(w[k])
    ensures SplitFrom(w + rest, cur) == SplitFrom(rest, cur + w)
    decreases |w|
  {
    if |w| > 0 {
      assert (w + rest)[0] == w[0] && (w + rest)[1..] == w[1..] + rest;
      SplitFromWord(w[1..], rest, cur + [w[0]]);
      assert cur + [w[0]] + w[1..] == cur + w;
    } else {
      assert w + rest == rest && cur + w == cur;
    }
  }

  /** The line written for one token splits back into its fields. */
  lemma SplitTokenLine(tok: string, lab: string)
    requires IsWord(tok) && IsWord(lab)
    ensures Split(TokenLine(tok, lab, None)) == [tok, lab]
  {
    var tail := "\t" + lab + "\n";
    assert TokenLine(tok, lab, None) == tok + tail;
    SplitFromWord(tok, tail, []);
    assert [] + tok == tok;
    assert tail[1..] == lab + "\n";
    SplitFromWord(lab, "\n", []);
    assert [] + lab == lab;
    assert SplitFrom("\n", lab) == [lab] + SplitFrom([], []);
  }

  // ---------------------------------------------------------------------------
  // `f.readlines()`

  /** The lines of `text` still to come, `cur` being the part of the current
      line already read; each line keeps its newline, and a last line
      without one is kept as it is. */
  function LinesFrom(text: string, cur: string): seq<string>
    decreases |text|
  {
    if |text| == 0 then (if |cur| == 0 then [] else [cur])
    else if text[0] == '\n' then [cur + "\n"] + LinesFrom(text[1..], [])
    else LinesFrom(text[1..], cur + [text[0]])
  }

  /** `f.readlines()` on a file holding `text`. */
  function ReadLines(text: string): seq<string>
  {
    LinesFrom(text, [])
  }

  /** `l` is one whole line: it ends in its only newline. */
  predicate IsLine(l: string)
  {
    |l| > 0 && l[|l| - 1] == '\n' && forall k :: 0 <= k < |l| - 1 ==> l[k] != '\n'
  }

  /** The text of a file written line by line. */
  function Concat(ls: seq<string>): (text: string)
    ensures |ls| == 0 ==> text == []
  {
    if |ls| == 0 then [] else ls[0] + Concat(ls[1..])
  }

  lemma {:induction false} ConcatAppend(ls: seq<string>, ms: seq<string>)
    ensures Concat(ls + ms) == Concat(ls) + Concat(ms)
    decreases |ls|
  {
    if |ls| > 0 {
      assert (ls + ms)[0] == ls[0] && (ls + ms)[1..] == ls[1..] + ms;
      ConcatAppend(ls[1..], ms);
    } else {
      assert ls + ms == ms;
    }
  }

  /** Writing one more line extends the text by that line. */
  lemma ConcatPrefix(ls: seq<string>, i: nat)
    requires i < |ls|
    ensures Concat(ls[..i + 1]) == Concat(ls[..i]) + ls[i]
  {
    ConcatAppend(ls[..i], [ls[i]]);
    assert ls[..i + 1] == ls[..i] + [ls[i]];
    assert Concat([ls[i]]) == ls[i] + Concat([]);
  }

  lemma {:induction false} LinesFromLine(l: string, rest: string, cur: string)
    requires |l| > 0 && l[|l| - 1] == '\n' && forall k :: 0 <= k < |l| - 1 ==> l[k] != '\n'
    ensures LinesFrom(l + rest, cur) == [cur + l] + LinesFrom(rest, [])
    decreases |l|
  {
    assert (l + rest)[0] == l[0];
    if |l| == 1 {
      assert l == "\n" && (l + rest)[1..] == rest;
    } else {
      assert (l + rest)[1..] == l[1..] + rest;
      LinesFromLine(l[1..], rest, cur + [l[0]]);
      assert cur + [l[0]] + l[1..] == cur + l;
    }
  }

  /** Reading back a file written as whole lines gives those lines. */
  lemma {:induction false} ReadLinesConcat(ls: seq<string>)
    requires forall i :: 0 <= i < |ls| ==> IsLine(ls[i])
    ensures ReadLines(Concat(ls)) == ls
    decreases |ls|
  {
    if |ls| > 0 {
      assert IsLine(ls[0]);
      LinesFromLine(ls[0], Concat(ls[1..]), []);
      assert [] + ls[0] == ls[0];
      ReadLinesConcat(ls[1..]);
    }
  }

  // ---------------------------------------------------------------------------
  // `read_file`, as a fold over the lines

  /** The local state of `read_file`: the sentences and label lists emitted
      so far, and the sentence being collected. */
  datatype Reader = Reader(sents: seq<seq<string>>, labels: seq<seq<string>>,
                           sent: seq<string>, tags: seq<string>)

  const Start := Reader([], [], [], [])

  /** `token, label = line.split()` fails on a line that is not blank and
      does not hold exactly two fields. */
  predicate BadLine(line: string)
  {
    !Blank(line) && |Split(line)| != 2
  }

  /** One pass of the loop of `read_file`: a blank line ends a non-empty
      sentence and is otherwise ignored; any other line adds its token and
      label to the current sentence. */
  function Step(st: Reader, line: string): (r: Result<Reader>)
    ensures r.Malformed? <==> BadLine(line)
  {
    if Blank(line) then
      if |st.sent| != 0 then Ok(Reader(st.sents + [st.sent], st.labels + [st.tags], [], []))
      else Ok(st)
    else
      var fields := Split(line);
      if |fields| != 2 then Malformed(line)
      else Ok(Reader(st.sents, st.labels, st.sent + [fields[0]], st.tags + [fields[1]]))
  }

  /** The loop of `read_file` from state `st` over the remaining lines. */
  function Run(st: Reader, lines: seq<string>): Result<Reader>
    decreases |lines|
  {
    if |lines| == 0 then Ok(st)
    else match Step(st, lines[0])
      case Malformed(l) => Malformed(l)
      case Ok(next) => Run(next, lines[1..])
  }

  /** `read_file` on a file whose `readlines()` are `lines`; the sentence
      still being collected when the lines run out is dropped. */
  function ParseLines(lines: seq<string>): Result<Corpus>
  {
    match Run(Start, lines)
    case Malformed(l) => Malformed(l)
    case Ok(st) => Ok(Corpus(st.sents, st.labels))
  }

  /** `read_file`: the loop over the lines, with the state in locals. */
  method ReadFile(lines: seq<string>) returns (r: Result<Corpus>)
    ensures r == ParseLines(lines)
  {
    var sents: seq<seq<string>> := [];
    var labels: seq<seq<string>> := [];
    var currSent: seq<string> := [];
    var currLabels: seq<string> := [];
    for i := 0 to |lines|
      invariant Run(Reader(sents, labels, currSent, currLabels), lines[i..]) == Run(Start, lines)
    {
      assert lines[i..][1..] == lines[i + 1..];
      var line := lines[i];
      if Blank(line) {
        if |currSent| != 0 {
          sents := sents + [currSent];
          labels := labels + [currLabels];
          currSent := [];
          currLabels := [];
        }
      } else {
        var fields := Split(line);
        if |fields| != 2 {
          return Malformed(line);
        }
        currSent := currSent + [fields[0]];
        currLabels := currLabels + [fields[1]];
      }
    }
    assert lines[|lines|..] == [];
    r := Ok(Corpus(sents, labels));
  }

  // ---------------------------------------------------------------------------
  // What `read_file` promises

  /** Parallel lists of non-empty sentences and their labels. */
  predicate Aligned(sents: seq<seq<string>>, labels: seq<seq<string>>)
  {
    |sents| == |labels| && forall k :: 0 <= k < |sents| ==> 0 < |sents[k]| == |labels[k]|
  }

  predicate ReaderAligned(st: Reader)
  {
    Aligned(st.sents, st.labels) && |st.sent| == |st.tags|
  }

  lemma {:induction false} RunAligned(st: Reader, lines: seq<string>)
    requires ReaderAligned(st)
    ensures Run(st, lines).Ok? ==> ReaderAligned(Run(st, lines).value)
    decreases |lines|
  {
    if |lines| > 0 {
      var r := Step(st, lines[0]);
      if r.Ok? {
        var next := r.value;
        assert ReaderAligned(next) by {
          if Blank(lines[0]) && |st.sent| != 0 {
            assert next.sents == st.sents + [st.sent] && next.labels == st.labels + [st.tags];
          }
        }
        RunAligned(next, lines[1..]);
      }
    }
  }

  /** The two lists have one entry per sentence, no sentence is empty, and
      every sentence has one label per token. */
  lemma ReadAligned(lines: seq<string>)
    ensures ParseLines(lines).Ok? ==> Aligned(ParseLines(lines).value.sents, ParseLines(lines).value.labels)
  {
    RunAligned(Start, lines);
  }

  /** Reading fails exactly when some line is neither blank nor a token and
      a label, and it fails on the first such line. */
  lemma {:induction false} RunFails(st: Reader, lines: seq<string>)
    ensures Run(st, lines).Malformed? <==> exists k :: 0 <= k < |lines| && BadLine(lines[k])
    ensures Run(st, lines).Malformed? ==>
      exists k :: 0 <= k < |lines| && BadLine(lines[k]) && Run(st, lines).line == lines[k]
        && forall i :: 0 <= i < k ==> !BadLine(lines[i])
    decreases |lines|
  {
    if |lines| > 0 {
      var r := Step(st, lines[0]);
      if r.Ok? {
        RunFails(r.value, lines[1..]);
        if Run(st, lines).Malformed? {
          var k :| 0 <= k < |lines[1..]| && BadLine(lines[1..][k]) && Run(r.value, lines[1..]).line == lines[1..][k]
            && forall i :: 0 <= i < k ==> !BadLine(lines[1..][i]);
          assert BadLine(lines[k + 1]) && Run(st, lines).line == lines[k + 1];
          assert forall i :: 1 <= i < k + 1 ==> lines[i] == lines[1..][i - 1];
        } else {
          assert forall k :: 1 <= k < |lines| ==> lines[k] == lines[1..][k - 1];
        }
      } else {
        assert BadLine(lines[0]);
      }
    }
  }

  lemma ReadFails(lines: seq<string>)
    ensures ParseLines(lines).Malformed? <==> exists k :: 0 <= k < |lines| && BadLine(lines[k])
  {
    RunFails(Start, lines);
  }

  lemma {:induction false} RunAppend(st: Reader, lines: seq<string>, more: seq<string>)
    ensures Run(st, lines + more) ==
      match Run(st, lines)
      case Malformed(l) => Malformed(l)
      case Ok(mid) => Run(mid, more)
    decreases |lines|
  {
    if |lines| > 0 {
      assert (lines + more)[0] == lines[0];
      assert (lines + more)[1..] == lines[1..] + more;
      if Step(st, lines[0]).Ok? {
        RunAppend(Step(st, lines[0]).value, lines[1..], more);
      }
    } else {
      assert lines + more == more;
    }
  }

  /** Nothing is flushed after the loop: a token line at the end of the file
      changes nothing in what is read. */
  lemma NoFinalFlush(lines: seq<string>, line: string)
    requires !Blank(line) && |Split(line)| == 2
    ensures ParseLines(lines + [line]) == ParseLines(lines)
  {
    RunAppend(Start, lines, [line]);
    if Run(Start, lines).Ok? {
      var mid := Run(Start, lines).value;
      assert [line][1..] == [];
      var next := Step(mid, line).value;
      assert next.sents == mid.sents && next.labels == mid.labels;
    }
  }

  // ---------------------------------------------------------------------------
  // `write_sent` and `write_preds`

  /** An open text file: what has been written to it so far. */
  class TextFile {
    var contents: string

    /** `open(fname, "w")`: the file starts out empty. */
    constructor ()
      ensures contents == []
    {
      contents := [];
    }

    /** `f.write(s)`. */
    method Write(s: string)
      modifies this
      ensures contents == old(contents) + s
    {
      contents := contents + s;
    }
  }

  /** The line `write_sent` writes for one token, its label and, when
      there is one, its prediction. */
  function TokenLine(tok: string, lab: string, p: Option<string>): string
  {
    tok + "\t" + lab + (if p.Some? then "\t" + p.value else "") + "\n"
  }

  /** `pred[i]` when a prediction list is given. */
  function PredAt(pred: Option<seq<string>>, i: nat): Option<string>
    requires pred.Some? ==> i < |pred.value|
  {
    if pred.Some? then Some(pred.value[i]) else None
  }

  /** The lines `write_sent` writes: one per token, then an empty line. */
  function SentLines(toks: seq<string>, labels: seq<string>, pred: Option<seq<string>>): (ls: seq<string>)
    requires |toks| <= |labels| && (pred.Some? ==> |toks| <= |pred.value|)
    ensures |ls| == |toks| + 1 && ls[|toks|] == "\n"
    ensures forall i :: 0 <= i < |toks| ==> ls[i] == TokenLine(toks[i], labels[i], PredAt(pred, i))
  {
    seq(|toks|, i requires 0 <= i < |toks| => TokenLine(toks[i], labels[i], PredAt(pred, i))) + ["\n"]
  }

  /** One pass of the loop of `write_sent`: the token and its label, then
      the prediction if there is one, then the newline. */
  method WriteToken(f: TextFile, tok: string, lab: string, p: Option<string>)
    modifies f
    ensures f.contents == old(f.contents) + TokenLine(tok, lab, p)
  {
    f.Write(tok + "\t" + lab);
    if p.Some? {
      f.Write("\t" + p.value);
    }
    f.Write("\n");
  }

  /** `write_sent(f, toks, labels, pred)`; `labels` and `pred` may be longer
      than `toks`, but not shorter, or indexing them fails. */
  method WriteSent(f: TextFile, toks: seq<string>, labels: seq<string>, pred: Option<seq<string>>)
    requires |toks| <= |labels| && (pred.Some? ==> |toks| <= |pred.value|)
    modifies f
    ensures f.contents == old(f.contents) + Concat(SentLines(toks, labels, pred))
  {
    ghost var lines := SentLines(toks, labels, pred);
    for i := 0 to |toks|
      invariant f.contents == old(f.contents) + Concat(lines[..i])
    {
      WriteToken(f, toks[i], labels[i], if pred.Some? then Some(pred.value[i]) else None);
      ConcatPrefix(lines, i);
    }
    f.Write("\n");
    ConcatPrefix(lines, |toks|);
    assert lines[..|toks| + 1] == lines;
  }

  /** The lines `write_sent` writes for sentences `0 .. n-1`, in order. */
  function DocLines(sents: seq<seq<string>>, labels: seq<seq<string>>, preds: Option<seq<seq<string>>>, n: nat)
    : seq<string>
    requires n <= |sents| <= |labels| && (preds.Some? ==> |sents| <= |preds.value|)
    requires forall k :: 0 <= k < |sents| ==> |sents[k]| <= |labels[k]|
    requires preds.Some? ==> forall k :: 0 <= k < |sents| ==> |sents[k]| <= |preds.value[k]|
  {
    if n == 0 then []
    else
      var pred := if preds.Some? then Some(preds.value[n - 1]) else None;
      DocLines(sents, labels, preds, n - 1) + SentLines(sents[n - 1], labels[n - 1], pred)
  }

  /** `write_preds(fname, sents, labels, preds)`: opens (and so empties) the
      file, fails one of its two length assertions, or writes every
      sentence with its labels and predictions, in order. */
  method WritePreds(sents: seq<seq<string>>, labels: seq<seq<string>>, preds: seq<seq<string>>)
    returns (f: TextFile, ok: bool)
    requires |sents| == |labels| == |preds| ==>
      forall k :: 0 <= k < |sents| ==> |sents[k]| <= |labels[k]| && |sents[k]| <= |preds[k]|
    ensures fresh(f)
    ensures ok <==> |sents| == |labels| == |preds|
    ensures !ok ==> f.contents == []
    ensures ok ==> f.contents == Concat(DocLines(sents, labels, Some(preds), |sents|))
  {
    f := new TextFile();
    if |sents| != |labels| || |sents| != |preds| {
      return f, false;
    }
    for i := 0 to |sents|
      invariant f.contents == Concat(DocLines(sents, labels, Some(preds), i))
    {
      WriteSent(f, sents[i], labels[i], Some(preds[i]));
      ConcatAppend(DocLines(sents, labels, Some(preds), i), SentLines(sents[i], labels[i], Some(preds[i])));
    }
    ok := true;
  }

  // ---------------------------------------------------------------------------
  // Reading back what was written

  /** Sentences the reader can give back: aligned, and every token and
      label a single non-empty field. */
  predicate Readable(sents: seq<seq<string>>, labels: seq<seq<string>>)
  {
    Aligned(sents, labels)
    && forall k, i :: 0 <= k < |sents| && 0 <= i < |sents[k]| ==> IsWord(sents[k][i]) && IsWord(labels[k][i])
  }

  lemma {:induction false} RunTokens(st: Reader, toks: seq<string>, labels: seq<string>,
                                     ls: seq<string>, rest: seq<string>)
    requires |toks| == |labels| == |ls|
    requires forall i :: 0 <= i < |ls| ==>
      IsWord(toks[i]) && IsWord(labels[i]) && ls[i] == TokenLine(toks[i], labels[i], None)
    ensures Run(st, ls + rest) == Run(Reader(st.sents, st.labels, st.sent + toks, st.tags + labels), rest)
    decreases |ls|
  {
    if |ls| == 0 {
      assert ls + rest == rest;
      assert st.sent + toks == st.sent && st.tags + labels == st.tags;
    } else {
      var line := ls[0];
      SplitTokenLine(toks[0], labels[0]);
      SplitEmptyIffBlank(line);
      var next := Reader(st.sents, st.labels, st.sent + [toks[0]], st.tags + [labels[0]]);
      assert Step(st, line) == Ok(next);
      assert (ls + rest)[0] == line && (ls + rest)[1..] == ls[1..] + rest;
      RunTokens(next, toks[1..], labels[1..], ls[1..], rest);
      assert next.sent + toks[1..] == st.sent + toks;
      assert next.tags + labels[1..] == st.tags + labels;
    }
  }

  lemma RunSentence(st: Reader, toks: seq<string>, labels: seq<string>, rest: seq<string>)
    requires st.sent == [] && st.tags == []
    requires |toks| == |labels| > 0
    requires forall i :: 0 <= i < |toks| ==> IsWord(toks[i]) && IsWord(labels[i])
    ensures Run(st, SentLines(toks, labels, None) + rest)
         == Run(Reader(st.sents + [toks], st.labels + [labels], [], []), rest)
  {
    var ls := SentLines(toks, labels, None);
    assert ls + rest == ls[..|toks|] + (["\n"] + rest);
    RunTokens(st, toks, labels, ls[..|toks|], ["\n"] + rest);
    var mid := Reader(st.sents, st.labels, st.sent + toks, st.tags + labels);
    assert Blank("\n");
    assert mid.sent == toks && mid.tags == labels;
    assert Step(mid, "\n") == Ok(Reader(st.sents + [toks], st.labels + [labels], [], []));
    assert (["\n"] + rest)[1..] == rest;
  }

  lemma {:induction false} RunDocument(sents: seq<seq<string>>, labels: seq<seq<string>>, n: nat)
    requires Readable(sents, labels) && n <= |sents|
    ensures Run(Start, DocLines(sents, labels, None, n)) == Ok(Reader(sents[..n], labels[..n], [], []))
  {
    if n > 0 {
      RunDocument(sents, labels, n - 1);
      var before := DocLines(sents, labels, None, n - 1);
      var ls := SentLines(sents[n - 1], labels[n - 1], None);
      assert DocLines(sents, labels, None, n) == before + ls;
      RunAppend(Start, before, ls);
      assert ls == ls + [];
      RunSentence(Reader(sents[..n - 1], labels[..n - 1], [], []), sents[n - 1], labels[n - 1], []);
      assert sents[..n - 1] + [sents[n - 1]] == sents[..n];
      assert labels[..n - 1] + [labels[n - 1]] == labels[..n];
    }
  }

  lemma {:induction false} DocLinesAreLines(sents: seq<seq<string>>, labels: seq<seq<string>>, n: nat)
    requires Readable(sents, labels) && n <= |sents|
    ensures forall i :: 0 <= i < |DocLines(sents, labels, None, n)| ==> IsLine(DocLines(sents, labels, None, n)[i])
  {
    if n > 0 {
      DocLinesAreLines(sents, labels, n - 1);
      var ls := SentLines(sents[n - 1], labels[n - 1], None);
      forall i | 0 <= i < |ls|
        ensures IsLine(ls[i])
      {
        if i < |sents[n - 1]| {
          var tok, lab := sents[n - 1][i], labels[n - 1][i];
          assert ls[i] == TokenLine(tok, lab, None);
          assert ls[i] == tok + "\t" + lab + "" + "\n";
          assert ls[i] == tok + "\t" + lab + "\n";
          assert forall k :: 0 <= k < |tok| ==> ls[i][k] == tok[k];
          assert forall k :: 0 <= k < |lab| ==> ls[i][|tok| + 1 + k] == lab[k];
        }
      }
    }
  }

  /** Reading a file written by `write_sent` without predictions gives back
      the sentences and labels that were written. */
  lemma ReadWhatWasWritten(sents: seq<seq<string>>, labels: seq<seq<string>>)
    requires Readable(sents, labels)
    ensures ParseLines(ReadLines(Concat(DocLines(sents, labels, None, |sents|)))) == Ok(Corpus(sents, labels))
  {
    var ls := DocLines(sents, labels, None, |sents|);
    DocLinesAreLines(sents, labels, |sents|);
    ReadLinesConcat(ls);
    RunDocument(sents, labels, |sents|);
    assert sents[..|sents|] == sents && labels[..|labels|] == labels;
  }
}
