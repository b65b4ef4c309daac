/** The two `.env` texts the scaffolder writes (bin/index.js, lines 92-95 and
    102), and a reader for the `KEY=VALUE` line format. The reader is not part
    of the scaffolder: it is the inverse against which the rendering is proved
    to keep every backend entry, in order, and nothing else. */
module EnvFile {

  datatype Option<T> = None | Some(value: T)

  /** One answer as `Object.entries` yields it: a field name and its value. */
  type Entry = (string, string)

  /** No key occurs twice: the answers object has one property per key.
      The model's functions accept any sequence; the lemmas that depend on
      this say so. */
  predicate DistinctKeys(answers: seq<Entry>) {
    forall i, j :: 0 <= i < j < |answers| ==> answers[i].0 != answers[j].0
  }

  /** Keys starting with this prefix belong to the React client, not the backend. */
  const FRONTEND_PREFIX: string := "REACT_APP"

  /** The single key written to the client's `.env`. */
  const API_BASE_URL_KEY: string := "REACT_APP_API_BASE_URL"

  /** What a JavaScript template literal prints for a property that is missing. */
  const UNDEFINED: string := "undefined"

  /** `String.prototype.startsWith`. */
  predicate StartsWith(s: string, prefix: string) {
    |prefix| <= |s| && s[..|prefix|] == prefix
  }

  predicate IsFrontendKey(key: string) {
    StartsWith(key, FRONTEND_PREFIX)
  }

  /** The `.filter(([key]) => !key.startsWith('REACT_APP'))` step. */
  function BackendEntries(answers: seq<Entry>): (kept: seq<Entry>)
    ensures |kept| <= |answers|
    ensures forall e :: e in kept <==> e in answers && !IsFrontendKey(e.0)
  {
    if answers == [] then []
    else (if IsFrontendKey(answers[0].0) then [] else [answers[0]]) + BackendEntries(answers[1..])
  }

  /** The `` `${key}=${val}` `` template: no quoting, no escaping. */
  function RenderLine(e: Entry): string {
    e.0 + "=" + e.1
  }

  /** The `.map(...)` step. */
  function Lines(entries: seq<Entry>): (lines: seq<string>)
    ensures |lines| == |entries|
    ensures forall i :: 0 <= i < |entries| ==> lines[i] == RenderLine(entries[i])
  {
    seq(|entries|, i requires 0 <= i < |entries| => RenderLine(entries[i]))
  }

  /** `Array.prototype.join('\n')`: a separator between lines, none after the last. */
  function Join(lines: seq<string>): string {
    if |lines| == 0 then ""
    else if |lines| == 1 then lines[0]
    else lines[0] + "\n" + Join(lines[1..])
  }

  function Render(entries: seq<Entry>): string {
    Join(Lines(entries))
  }

  /** The text written to `backend/.env`. */
  function BackendEnvText(answers: seq<Entry>): string {
    Render(BackendEntries(answers))
  }

  /** Property access on the answers object: the value stored under `key`, if any. */
  function Lookup(answers: seq<Entry>, key: string): (r: Option<string>)
    ensures r.Some? ==> (key, r.value) in answers
    ensures r.None? <==> forall e :: e in answers ==> e.0 != key
  {
    if answers == [] then None
    else if answers[0].0 == key then Some(answers[0].1)
    else Lookup(answers[1..], key)
  }

  /** `${envAnswers.REACT_APP_API_BASE_URL}`: the answer, or `undefined` when
      the answers object has no such property. */
  function ApiBaseUrlValue(answers: seq<Entry>): string {
    match Lookup(answers, API_BASE_URL_KEY)
    case Some(v) => v
    case None => UNDEFINED
  }

  /** The text written to `webclient/.env`. */
  function FrontendEnvText(answers: seq<Entry>): string {
    RenderLine((API_BASE_URL_KEY, ApiBaseUrlValue(answers)))
  }

  // ---------------------------------------------------------------------------
  // Reading the format back

  /** An entry that survives a render/read round trip: no `=` in its key and no
      line break anywhere. */
  predicate WellFormed(e: Entry) {
    '=' !in e.0 && '\n' !in e.0 && '\n' !in e.1
  }

  /** Splits a text at every line break (`s.split('\n')`). */
  function SplitLines(s: string): (lines: seq<string>)
    ensures |lines| >= 1
  {
    if s == [] then [""]
    else
      var rest := SplitLines(s[1..]);
      if s[0] == '\n' then [""] + rest else [[s[0]] + rest[0]] + rest[1..]
  }

  /** Position of the first occurrence of `c` in `s`. */
  function IndexOf(s: string, c: char): (i: nat)
    requires c in s
    ensures i < |s| && s[i] == c && c !in s[..i]
  {
    if s[0] == c then 0
    else
      var i := 1 + IndexOf(s[1..], c);
      assert s[..i] == [s[0]] + s[1..][..i - 1];
      i
  }

  /** Splits a line at its first `=`; a line without one is not an entry. */
  function ParseLine(line: string): (r: Option<Entry>)
    ensures r.Some? <==> '=' in line
    ensures r.Some? ==> RenderLine(r.value) == line && '=' !in r.value.0
  {
    if '=' !in line then None
    else
      var i := IndexOf(line, '=');
      assert line == line[..i] + "=" + line[i + 1..];
      Some((line[..i], line[i + 1..]))
  }

  /** Reads every line as an entry; fails if any line lacks `=`. */
  function ParseLines(lines: seq<string>): (r: Option<seq<Entry>>)
    ensures r.Some? ==> |r.value| == |lines|
    ensures r.Some? <==> forall l :: l in lines ==> '=' in l
  {
    if lines == [] then Some([])
    else
      match (ParseLine(lines[0]), ParseLines(lines[1..]))
      case (Some(e), Some(es)) => Some([e] + es)
      case _ => None
  }

  /** Reads a whole `.env` text. */
  function ParseEnv(text: string): Option<seq<Entry>> {
    ParseLines(SplitLines(text))
  }

  /** Number of occurrences of `c` in `s`. */
  function Occurrences(c: char, s: string): nat {
    if s == [] then 0 else (if s[0] == c then 1 else 0) + Occurrences(c, s[1..])
  }

  // ---------------------------------------------------------------------------
  // The backend filter

  /** The filter distributes over concatenation: kept entries keep their
      relative order. */
  lemma {:induction false} BackendEntriesAppend(a: seq<Entry>, b: seq<Entry>)
    ensures BackendEntries(a + b) == BackendEntries(a) + BackendEntries(b)
  {
    if a != [] {
      assert (a + b)[0] == a[0] && (a + b)[1..] == a[1..] + b;
      BackendEntriesAppend(a[1..], b);
    } else {
      assert a + b == b;
    }
  }

  /** Each entry occurs in the backend entries exactly as often as in the
      answers when its key is a backend key, and never otherwise. */
  lemma {:induction false} BackendEntriesCount(answers: seq<Entry>, e: Entry)
    ensures multiset(BackendEntries(answers))[e]
         == if IsFrontendKey(e.0) then 0 else multiset(answers)[e]
  {
    if answers != [] {
      var head := if IsFrontendKey(answers[0].0) then [] else [answers[0]];
      assert BackendEntries(answers) == head + BackendEntries(answers[1..]);
      BackendEntriesCount(answers[1..], e);
      assert answers == [answers[0]] + answers[1..];
      assert multiset(answers) == multiset([answers[0]]) + multiset(answers[1..]);
    }
  }

  /** Two kept answers appear in the backend entries in the order they were
      collected. */
  lemma BackendEntriesOrder(answers: seq<Entry>, i: nat, j: nat)
    requires i < j < |answers|
    requires !IsFrontendKey(answers[i].0) && !IsFrontendKey(answers[j].0)
    ensures exists p, q :: 0 <= p < q < |BackendEntries(answers)|
                        && BackendEntries(answers)[p] == answers[i]
                        && BackendEntries(answers)[q] == answers[j]
  {
    var front, back := answers[..j], answers[j..];
    assert answers == front + back;
    BackendEntriesAppend(front, back);
    assert answers[i] in front;
    var kf := BackendEntries(front);
    var p :| 0 <= p < |kf| && kf[p] == answers[i];
    assert back[0] == answers[j];
    assert BackendEntries(back)[0] == answers[j];
    var q := |kf|;
    assert BackendEntries(answers)[p] == answers[i];
    assert BackendEntries(answers)[q] == answers[j];
  }

  /** Answers whose keys are all backend keys pass the filter unchanged. */
  lemma {:induction false} BackendEntriesKeepsAll(answers: seq<Entry>)
    requires forall e :: e in answers ==> !IsFrontendKey(e.0)
    ensures BackendEntries(answers) == answers
  {
    if answers != [] {
      assert answers[0] in answers;
      BackendEntriesKeepsAll(answers[1..]);
    }
  }

  // ---------------------------------------------------------------------------
  // Join and split

  lemma {:induction false} SplitSingleLine(s: string)
    requires '\n' !in s
    ensures SplitLines(s) == [s]
  {
    if s != [] {
      SplitSingleLine(s[1..]);
      assert s == [s[0]] + s[1..];
    }
  }

  lemma {:induction false} SplitFirstLine(a: string, b: string)
    requires '\n' !in a
    ensures SplitLines(a + "\n" + b) == [a] + SplitLines(b)
  {
    if a == [] {
      assert a + "\n" + b == "\n" + b;
      assert ("\n" + b)[1..] == b;
    } else {
      assert (a + "\n" + b)[1..] == a[1..] + "\n" + b;
      SplitFirstLine(a[1..], b);
      assert a == [a[0]] + a[1..];
    }
  }

  /** Splitting a joined text gives back its lines, provided none of them
      holds a line break. */
  lemma {:induction false} SplitJoin(lines: seq<string>)
    requires lines != []
    requires forall l :: l in lines ==> '\n' !in l
    ensures SplitLines(Join(lines)) == lines
  {
    assert lines[0] in lines;
    if |lines| == 1 {
      SplitSingleLine(lines[0]);
    } else {
      SplitFirstLine(lines[0], Join(lines[1..]));
      assert forall l :: l in lines[1..] ==> l in lines;
      SplitJoin(lines[1..]);
      assert lines == [lines[0]] + lines[1..];
    }
  }

  lemma {:induction false} OccurrencesAppend(c: char, a: string, b: string)
    ensures Occurrences(c, a + b) == Occurrences(c, a) + Occurrences(c, b)
  {
    if a != [] {
      assert (a + b)[0] == a[0] && (a + b)[1..] == a[1..] + b;
      OccurrencesAppend(c, a[1..], b);
    } else {
      assert a + b == b;
    }
  }

  lemma {:induction false} OccurrencesAbsent(c: char, s: string)
    requires c !in s
    ensures Occurrences(c, s) == 0
  {
    if s != [] {
      OccurrencesAbsent(c, s[1..]);
    }
  }

  /** `join('\n')` puts one line break between consecutive lines and none at
      the end. */
  lemma {:induction false} JoinLineBreaks(lines: seq<string>)
    requires lines != []
    requires forall l :: l in lines ==> '\n' !in l
    ensures Occurrences('\n', Join(lines)) == |lines| - 1
  {
    assert lines[0] in lines;
    OccurrencesAbsent('\n', lines[0]);
    if |lines| > 1 {
      assert forall l :: l in lines[1..] ==> l in lines;
      JoinLineBreaks(lines[1..]);
      assert Join(lines) == lines[0] + "\n" + Join(lines[1..]);
      assert Occurrences('\n', "\n") == 1 by {
        assert "\n"[1..] == "";
      }
      OccurrencesAppend('\n', lines[0], "\n");
      OccurrencesAppend('\n', lines[0] + "\n", Join(lines[1..]));
    }
  }

  // ---------------------------------------------------------------------------
  // Round trips

  lemma {:induction false} IndexOfAfter(a: string, c: char, b: string)
    requires c !in a
    ensures c in a + [c] + b && IndexOf(a + [c] + b, c) == |a|
  {
    if a != [] {
      assert (a + [c] + b)[1..] == a[1..] + [c] + b;
      IndexOfAfter(a[1..], c, b);
    }
  }

  /** A line rendered from an entry whose key has no `=` reads back as that entry. */
  lemma ParseRenderLine(e: Entry)
    requires '=' !in e.0
    ensures ParseLine(RenderLine(e)) == Some(e)
  {
    var line := RenderLine(e);
    var i := IndexOf(line, '=');
    IndexOfAfter(e.0, '=', e.1);
    assert line[..i] == e.0;
    assert line[i + 1..] == e.1;
  }

  lemma {:induction false} ParseLinesOfEntries(entries: seq<Entry>)
    requires forall e :: e in entries ==> '=' !in e.0
    ensures ParseLines(Lines(entries)) == Some(entries)
  {
    if entries != [] {
      var lines, rest := Lines(entries), entries[1..];
      assert entries[0] in entries;
      ParseRenderLine(entries[0]);
      assert ParseLine(lines[0]) == Some(entries[0]);
      assert lines[1..] == Lines(rest);
      assert forall e :: e in rest ==> e in entries;
      ParseLinesOfEntries(rest);
      assert entries == [entries[0]] + rest;
    }
  }

  /** Reading a rendered text gives back the entries it was rendered from. */
  lemma RenderRoundTrip(entries: seq<Entry>)
    requires entries != []
    requires forall e :: e in entries ==> WellFormed(e)
    ensures ParseEnv(Render(entries)) == Some(entries)
    ensures |SplitLines(Render(entries))| == |entries|
  {
    var lines := Lines(entries);
    forall l | l in lines ensures '\n' !in l {
      var i :| 0 <= i < |lines| && lines[i] == l;
      assert entries[i] in entries;
      assert l == entries[i].0 + "=" + entries[i].1;
    }
    SplitJoin(lines);
    ParseLinesOfEntries(entries);
  }

  /** The backend text holds exactly one line per kept answer, in order, and
      those lines read back as the kept answers. */
  lemma BackendRoundTrip(answers: seq<Entry>)
    requires BackendEntries(answers) != []
    requires forall e :: e in answers && !IsFrontendKey(e.0) ==> WellFormed(e)
    ensures ParseEnv(BackendEnvText(answers)) == Some(BackendEntries(answers))
    ensures |SplitLines(BackendEnvText(answers))| == |BackendEntries(answers)|
  {
    RenderRoundTrip(BackendEntries(answers));
  }

  /** With n kept answers and no line break in any key or value, the backend
      text holds n - 1 line breaks: a separator between lines, none trailing. */
  lemma BackendLineBreaks(answers: seq<Entry>)
    requires BackendEntries(answers) != []
    requires forall e :: e in answers && !IsFrontendKey(e.0) ==> '\n' !in e.0 && '\n' !in e.1
    ensures Occurrences('\n', BackendEnvText(answers)) == |BackendEntries(answers)| - 1
  {
    var kept := BackendEntries(answers);
    var lines := Lines(kept);
    forall l | l in lines ensures '\n' !in l {
      var i :| 0 <= i < |lines| && lines[i] == l;
      assert kept[i] in kept;
      assert l == kept[i].0 + "=" + kept[i].1;
    }
    JoinLineBreaks(lines);
  }

  // ---------------------------------------------------------------------------
  // The client file

  /** The client text is one `REACT_APP_API_BASE_URL=<value>` line that reads
      back as that single entry, `undefined` standing for a missing answer. */
  lemma FrontendRoundTrip(answers: seq<Entry>)
    requires '\n' !in ApiBaseUrlValue(answers)
    ensures ParseEnv(FrontendEnvText(answers)) == Some([(API_BASE_URL_KEY, ApiBaseUrlValue(answers))])
  {
    var e := (API_BASE_URL_KEY, ApiBaseUrlValue(answers));
    assert Lines([e]) == [RenderLine(e)];
    assert Render([e]) == FrontendEnvText(answers);
    assert WellFormed(e);
    RenderRoundTrip([e]);
  }

  /** The client text depends on the API base URL answer alone: two answer
      objects that agree on that property give the same text. */
  lemma FrontendIgnoresOtherAnswers(a: seq<Entry>, b: seq<Entry>)
    requires forall v :: (API_BASE_URL_KEY, v) in a <==> (API_BASE_URL_KEY, v) in b
    requires DistinctKeys(a) && DistinctKeys(b)
    ensures FrontendEnvText(a) == FrontendEnvText(b)
  {
    var la, lb := Lookup(a, API_BASE_URL_KEY), Lookup(b, API_BASE_URL_KEY);
    if la.Some? {
      assert (API_BASE_URL_KEY, la.value) in b;
    }
    if lb.Some? {
      assert (API_BASE_URL_KEY, lb.value) in a;
    }
  }

  /** A client key other than REACT_APP_API_BASE_URL is written to neither file. */
  lemma OtherFrontendKeysDropped(answers: seq<Entry>, e: Entry)
    requires e in answers && IsFrontendKey(e.0) && e.0 != API_BASE_URL_KEY
    requires '\n' !in ApiBaseUrlValue(answers)
    ensures e !in BackendEntries(answers)
    ensures ParseEnv(FrontendEnvText(answers)).Some?
    ensures e !in ParseEnv(FrontendEnvText(answers)).value
  {
    FrontendRoundTrip(answers);
  }

  /** Values are written verbatim: a value holding a line break followed by
      `K=W` reads back as two entries, the second one under key `K`. */
  lemma ValueLineBreakInjectsEntry(key: string, v: string, k: string, w: string)
    requires !IsFrontendKey(key)
    requires WellFormed((key, v)) && WellFormed((k, w))
    ensures ParseEnv(BackendEnvText([(key, v + "\n" + k + "=" + w)])) == Some([(key, v), (k, w)])
  {
    var answers := [(key, v + "\n" + k + "=" + w)];
    BackendEntriesKeepsAll(answers);
    var first, second := RenderLine((key, v)), RenderLine((k, w));
    assert RenderLine(answers[0]) == first + "\n" + second;
    assert Lines(answers) == [first + "\n" + second];
    assert BackendEnvText(answers) == first + "\n" + second;
    assert '\n' !in first && '\n' !in second;
    SplitFirstLine(first, second);
    SplitSingleLine(second);
    var read := [(key, v), (k, w)];
    assert Lines(read) == [first, second];
    ParseLinesOfEntries(read);
  }
}
