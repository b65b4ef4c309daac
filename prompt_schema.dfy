/** The ten questions the scaffolder asks (bin/index.js, lines 31-89), as
    data, and what the two `.env` texts are for answers to exactly those
    questions. */
module PromptSchema {

  import opened EnvFile

  /** `type: 'text'` or `type: 'password'` (the answer is masked while typed). */
  datatype PromptKind = Text | Password

  /** One question: its answer key, how it is shown and its `initial` value. */
  datatype Field = Field(name: string, kind: PromptKind, initial: Option<string>)

  const SCHEMA: seq<Field> := [
    Field("PORT", Text, Some("5000")),
    Field("MONGO_URI", Text, Some("mongodb://localhost:27017/mern-auth")),
    Field("JWT_SECRET", Text, Some("your_jwt_secret")),
    Field("EMAIL_HOST", Text, Some("smtp.gmail.com")),
    Field("EMAIL_USER", Text, Some("your_email@example.com")),
    Field("EMAIL_PASS", Password, None),
    Field("GOOGLE_CLIENT_ID", Text, None),
    Field("GOOGLE_CLIENT_SECRET", Text, None),
    Field("GOOGLE_CALLBACK_URL", Text, Some("http://localhost:5000/api/auth/google/callback")),
    Field("REACT_APP_API_BASE_URL", Text, Some("http://localhost:5000"))
  ]

  /** The keys of `backend/.env`, in the order they are written. */
  const BACKEND_KEYS: seq<string> := [
    "PORT", "MONGO_URI", "JWT_SECRET", "EMAIL_HOST", "EMAIL_USER",
    "EMAIL_PASS", "GOOGLE_CLIENT_ID", "GOOGLE_CLIENT_SECRET", "GOOGLE_CALLBACK_URL"
  ]

  /** The answers object for one completed session: each question's key paired
      with the value given for it, in the order asked. */
  function Answers(fields: seq<Field>, values: seq<string>): (answers: seq<Entry>)
    requires |values| == |fields|
    ensures |answers| == |fields|
    ensures forall i :: 0 <= i < |fields| ==> answers[i] == (fields[i].name, values[i])
  {
    seq(|fields|, i requires 0 <= i < |fields| => (fields[i].name, values[i]))
  }

  /** The values of a session in which every question was answered with an
      empty line: the `initial` value, or the empty string where there is none. */
  function AcceptDefaults(fields: seq<Field>): (values: seq<string>)
    ensures |values| == |fields|
    ensures forall i :: 0 <= i < |fields| && fields[i].initial.Some? ==> values[i] == fields[i].initial.value
    ensures forall i :: 0 <= i < |fields| && fields[i].initial.None? ==> values[i] == ""
  {
    seq(|fields|, i requires 0 <= i < |fields| =>
      match fields[i].initial
      case Some(v) => v
      case None => "")
  }

  /** The questions are asked under the nine backend keys, in order, and
      then the API base URL key. */
  lemma SchemaNames()
    ensures |SCHEMA| == 10
    ensures forall i :: 0 <= i < 9 ==> SCHEMA[i].name == BACKEND_KEYS[i]
    ensures SCHEMA[9].name == API_BASE_URL_KEY
  {
  }

  /** No two questions share a key. */
  lemma SchemaNamesDistinct()
    ensures forall i, j :: 0 <= i < j < |SCHEMA| ==> SCHEMA[i].name != SCHEMA[j].name
  {
  }

  /** Only the API base URL key carries the client prefix. */
  lemma BackendKeysNotFrontend()
    ensures forall i :: 0 <= i < 9 ==> !IsFrontendKey(BACKEND_KEYS[i])
    ensures IsFrontendKey(API_BASE_URL_KEY)
  {
    forall i | 0 <= i < 9 ensures !IsFrontendKey(BACKEND_KEYS[i]) {
      var key := BACKEND_KEYS[i];
      if 9 <= |key| {
        assert key[..9][0] == key[0];
      }
    }
  }

  /** No backend key holds `=` or a line break. */
  lemma BackendKeysWellFormed()
    ensures forall i :: 0 <= i < 9 ==> '=' !in BACKEND_KEYS[i] && '\n' !in BACKEND_KEYS[i]
  {
  }

  /** For answers to the ten questions, the backend entries are the first nine
      answers, under the nine backend keys in the order asked; the API base
      URL is not among them. */
  lemma SchemaBackendEntries(values: seq<string>)
    requires |values| == |SCHEMA|
    ensures BackendEntries(Answers(SCHEMA, values)) == Answers(SCHEMA[..9], values[..9])
    ensures |BackendEntries(Answers(SCHEMA, values))| == 9
    ensures forall i :: 0 <= i < 9 ==> BackendEntries(Answers(SCHEMA, values))[i] == (BACKEND_KEYS[i], values[i])
    ensures forall e :: e in BackendEntries(Answers(SCHEMA, values)) ==> e.0 != API_BASE_URL_KEY
  {
    SchemaNames();
    BackendKeysNotFrontend();
    var answers := Answers(SCHEMA, values);
    var backend, client := Answers(SCHEMA[..9], values[..9]), [answers[9]];
    assert answers == backend + client;
    BackendEntriesKeepsAll(backend);
    assert BackendEntries(client) == [];
    BackendEntriesAppend(backend, client);
  }

  /** For answers to the ten questions, the backend text is nine rendered
      lines, line i being the i-th backend key, `=`, and the i-th answer. */
  lemma SchemaBackendLines(values: seq<string>)
    requires |values| == |SCHEMA|
    ensures |Lines(BackendEntries(Answers(SCHEMA, values)))| == 9
    ensures forall i :: 0 <= i < 9 ==>
      Lines(BackendEntries(Answers(SCHEMA, values)))[i] == BACKEND_KEYS[i] + "=" + values[i]
    ensures StartsWith(BackendEnvText(Answers(SCHEMA, values)), "PORT=" + values[0] + "\n")
  {
    SchemaBackendEntries(values);
    var lines := Lines(BackendEntries(Answers(SCHEMA, values)));
    assert Join(lines) == lines[0] + "\n" + Join(lines[1..]);
    assert lines[0] == "PORT=" + values[0];
  }

  /** For answers to the ten questions without line breaks, `backend/.env`
      holds exactly nine lines, line i being the i-th backend key, `=`, and the
      i-th answer; they are separated by eight line breaks. */
  lemma SchemaBackendText(values: seq<string>)
    requires |values| == |SCHEMA|
    requires forall i :: 0 <= i < 9 ==> '\n' !in values[i]
    ensures |SplitLines(BackendEnvText(Answers(SCHEMA, values)))| == 9
    ensures forall i :: 0 <= i < 9 ==>
      SplitLines(BackendEnvText(Answers(SCHEMA, values)))[i] == BACKEND_KEYS[i] + "=" + values[i]
    ensures Occurrences('\n', BackendEnvText(Answers(SCHEMA, values))) == 8
  {
    BackendKeysWellFormed();
    SchemaBackendEntries(values);
    var answers := Answers(SCHEMA, values);
    var kept := BackendEntries(answers);
    forall e | e in answers && !IsFrontendKey(e.0) ensures WellFormed(e) {
      var i :| 0 <= i < |kept| && kept[i] == e;
    }
    BackendRoundTrip(answers);
    BackendLineBreaks(answers);
    SplitJoin(Lines(kept)) by {
      forall l | l in Lines(kept) ensures '\n' !in l {
        var i :| 0 <= i < 9 && Lines(kept)[i] == l;
        assert l == BACKEND_KEYS[i] + "=" + values[i];
      }
    }
  }

  /** For answers to the ten questions, `webclient/.env` is the API base URL
      answer under its own key, whatever the other nine answers are. */
  lemma SchemaFrontendText(values: seq<string>)
    requires |values| == |SCHEMA|
    ensures FrontendEnvText(Answers(SCHEMA, values)) == API_BASE_URL_KEY + "=" + values[9]
  {
    SchemaNames();
    BackendKeysNotFrontend();
    var answers := Answers(SCHEMA, values);
    LookupFirst(answers, 9, API_BASE_URL_KEY);
  }

  /** A session in which every question is answered with an empty line: the
      nine backend lines carry the offered values (empty for the three
      questions without one), the first being `PORT=5000`, and the client
      file is `REACT_APP_API_BASE_URL=http://localhost:5000`. */
  lemma AllDefaultsScenario()
    ensures |Lines(BackendEntries(Answers(SCHEMA, AcceptDefaults(SCHEMA))))| == 9
    ensures forall i :: 0 <= i < 9 ==>
      Lines(BackendEntries(Answers(SCHEMA, AcceptDefaults(SCHEMA))))[i]
        == BACKEND_KEYS[i] + "=" + AcceptDefaults(SCHEMA)[i]
    ensures StartsWith(BackendEnvText(Answers(SCHEMA, AcceptDefaults(SCHEMA))), "PORT=5000\n")
    ensures FrontendEnvText(Answers(SCHEMA, AcceptDefaults(SCHEMA)))
         == "REACT_APP_API_BASE_URL=http://localhost:5000"
  {
    var d := AcceptDefaults(SCHEMA);
    assert d[0] == SCHEMA[0].initial.value;
    assert d[9] == SCHEMA[9].initial.value;
    SchemaBackendLines(d);
    DefaultPortLine(d);
    DefaultApiBaseUrl(d);
  }

  /** Answers to the ten questions never repeat a key, as `Object.entries`
      never does. */
  lemma SchemaAnswersDistinct(values: seq<string>)
    requires |values| == |SCHEMA|
    ensures DistinctKeys(Answers(SCHEMA, values))
  {
    SchemaNamesDistinct();
    var answers := Answers(SCHEMA, values);
    forall i, j | 0 <= i < j < |answers| ensures answers[i].0 != answers[j].0 {
      assert answers[i].0 == SCHEMA[i].name && answers[j].0 == SCHEMA[j].name;
    }
  }

  /** A session cut short (Ctrl-C) after the first k questions, k < 10, yields
      only those k answers, and the run goes on: every one of them is written
      to `backend/.env`, and `webclient/.env` gets the literal `undefined`. */
  lemma AbortedSession(k: nat, values: seq<string>)
    requires k < |SCHEMA| && |values| == k
    ensures BackendEntries(Answers(SCHEMA[..k], values)) == Answers(SCHEMA[..k], values)
    ensures FrontendEnvText(Answers(SCHEMA[..k], values)) == API_BASE_URL_KEY + "=" + UNDEFINED
  {
    SchemaNames();
    BackendKeysNotFrontend();
    var answers := Answers(SCHEMA[..k], values);
    forall e | e in answers ensures !IsFrontendKey(e.0) {
      var i :| 0 <= i < k && answers[i] == e;
      assert e.0 == BACKEND_KEYS[i];
    }
    BackendEntriesKeepsAll(answers);
    assert Lookup(answers, API_BASE_URL_KEY).None?;
  }

  /** Lookup finds the only entry under `key`. */
  lemma {:induction false} LookupFirst(answers: seq<Entry>, k: nat, key: string)
    requires k < |answers| && answers[k].0 == key
    requires forall i :: 0 <= i < k ==> answers[i].0 != key
    ensures Lookup(answers, key) == Some(answers[k].1)
  {
    if k > 0 {
      LookupFirst(answers[1..], k - 1, key);
    }
  }

  /** The answers of a session in which every question is answered with an
      empty line: the `initial` values, empty where a question has none. */
  lemma DefaultValues()
    ensures AcceptDefaults(SCHEMA) == [
      "5000", "mongodb://localhost:27017/mern-auth", "your_jwt_secret", "smtp.gmail.com",
      "your_email@example.com", "", "", "", "http://localhost:5000/api/auth/google/callback",
      "http://localhost:5000"
    ]
  {
  }

  /** A session that accepts the offered port writes `PORT=5000` as the
      first line of `backend/.env`, followed by a line break. */
  lemma DefaultPortLine(values: seq<string>)
    requires |values| == |SCHEMA| && values[0] == SCHEMA[0].initial.value
    ensures Lines(BackendEntries(Answers(SCHEMA, values)))[0] == "PORT=5000"
    ensures StartsWith(BackendEnvText(Answers(SCHEMA, values)), "PORT=5000\n")
  {
    SchemaBackendLines(values);
  }

  /** A session that accepts the offered API base URL writes
      `REACT_APP_API_BASE_URL=http://localhost:5000` as `webclient/.env`. */
  lemma DefaultApiBaseUrl(values: seq<string>)
    requires |values| == |SCHEMA| && values[9] == SCHEMA[9].initial.value
    ensures FrontendEnvText(Answers(SCHEMA, values)) == "REACT_APP_API_BASE_URL=http://localhost:5000"
  {
    SchemaFrontendText(values);
  }
}
