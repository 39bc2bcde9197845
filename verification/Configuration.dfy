/** The configuration file: which models exist, which rooms are pinned to them, who is allowed, and
    the checks a configuration passes before it is used. */
module Configuration {
  import opened Prelude
  import opened Text
  import Rooms
  import Secrets

  /** What the URL parser finds in an absolute URL. */
  datatype ParsedUrl = ParsedUrl(scheme: string, embedsCredentials: bool, loopback: bool)

  datatype BaseUrl = BaseUrl(text: string, parsed: Option<ParsedUrl>)

  datatype Model = Model(
    wireFormat: Rooms.WireFormat, modelName: string, baseUrl: Option<BaseUrl>,
    allowInsecureHttp: bool, apiKeySecret: Option<string>, chatIds: seq<int>)

  datatype Entry = Entry(key: string, model: Model)

  /** The models are an ordered map: a sequence of entries with different keys. */
  datatype Config = Config(
    defaultModel: string, models: seq<Entry>, allowedChatIds: seq<int>, ownerUserIds: seq<int>)

  ghost predicate Keyed(models: seq<Entry>) {
    forall i, j :: 0 <= i < j < |models| ==> models[i].key != models[j].key
  }

  predicate HasKey(models: seq<Entry>, key: string) {
    exists i :: 0 <= i < |models| && models[i].key == key
  }

  /** Every pin, in the order of the models. */
  function Pins(models: seq<Entry>): seq<int> {
    if models == [] then [] else models[0].model.chatIds + Pins(models[1..])
  }

  // ---------- What is wrong with a configuration ----------

  datatype Defect =
    | EmptyKey | SpacedKey | NoModelName | CompatWithoutUrl | EmptyUrl | UnparsedUrl
    | EmptySecret | ReservedSecret | MissingSecret | UrlCredentials | InsecureWithSecret | InsecureUrl

  datatype Problem =
    | UnknownDefault
    | Defective(key: string, defect: Defect)
    | PinnedTwice(chat: int)

  function ParsedBaseUrl(m: Model): Option<ParsedUrl> {
    if m.baseUrl.Some? && !IsBlank(m.baseUrl.value.text) then m.baseUrl.value.parsed else None
  }

  predicate HasSecret(m: Model) {
    m.apiKeySecret.Some? && !IsBlank(m.apiKeySecret.value) && !Secrets.IsReservedName(m.apiKeySecret.value)
  }

  predicate HasSpace(s: string) {
    exists i :: 0 <= i < |s| && IsWhitespace(s[i])
  }

  predicate HasDefect(key: string, m: Model, defect: Defect) {
    var url := ParsedBaseUrl(m);
    var insecure := url.Some? && url.value.scheme != "https";
    match defect
    case EmptyKey => IsBlank(key)
    case SpacedKey => !IsBlank(key) && HasSpace(key)
    case NoModelName => IsBlank(m.modelName)
    case CompatWithoutUrl => m.wireFormat == Rooms.Compat && m.baseUrl.None?
    case EmptyUrl => m.baseUrl.Some? && IsBlank(m.baseUrl.value.text)
    case UnparsedUrl => m.baseUrl.Some? && !IsBlank(m.baseUrl.value.text) && url.None?
    case EmptySecret => m.apiKeySecret.Some? && IsBlank(m.apiKeySecret.value)
    case ReservedSecret =>
      && m.apiKeySecret.Some? && !IsBlank(m.apiKeySecret.value)
      && Secrets.IsReservedName(m.apiKeySecret.value)
    case MissingSecret => m.wireFormat != Rooms.Compat && m.apiKeySecret.None?
    case UrlCredentials => url.Some? && url.value.embedsCredentials
    case InsecureWithSecret => insecure && HasSecret(m)
    case InsecureUrl =>
      && insecure && !HasSecret(m)
      && !(m.wireFormat == Rooms.Compat && url.value.scheme == "http" && (url.value.loopback || m.allowInsecureHttp))
  }

  ghost predicate HasProblem(c: Config, problem: Problem) {
    if problem.UnknownDefault? then !HasKey(c.models, c.defaultModel) else ModelsHaveProblem(c.models, problem)
  }

  ghost predicate ModelsHaveProblem(models: seq<Entry>, problem: Problem) {
    match problem
    case UnknownDefault => false
    case Defective(key, defect) =>
      exists i :: 0 <= i < |models| && models[i].key == key && HasDefect(key, models[i].model, defect)
    case PinnedTwice(chat) => multiset(Pins(models))[chat] > 1
  }

  ghost predicate Sound(e: Entry) {
    forall defect :: !HasDefect(e.key, e.model, defect)
  }

  ghost predicate PinnedOnce(models: seq<Entry>) {
    forall chat :: multiset(Pins(models))[chat] <= 1
  }

  /** A configuration the program accepts. */
  ghost predicate WellFormed(c: Config) {
    && HasKey(c.models, c.defaultModel)
    && (forall i :: 0 <= i < |c.models| ==> Sound(c.models[i]))
    && PinnedOnce(c.models)
  }

  // ---------- The program ----------

  method ValidateModel(key: string, m: Model) returns (defects: seq<Defect>)
    ensures forall defect :: defect in defects <==> HasDefect(key, m, defect)
  {
    var names := ValidateNames(key, m);
    var urls, url := ValidateUrlText(key, m);
    var secrets, hasSecret := ValidateSecret(key, m);
    var schemes := ValidateUrl(key, m, url, hasSecret);
    defects := names + urls + secrets + schemes;
  }

  /** The defects found are those of a group that the model has. */
  ghost predicate Finds(key: string, m: Model, defects: seq<Defect>, group: set<Defect>) {
    forall defect :: defect in defects <==> defect in group && HasDefect(key, m, defect)
  }

  method ValidateNames(key: string, m: Model) returns (defects: seq<Defect>)
    ensures Finds(key, m, defects, {EmptyKey, SpacedKey, NoModelName, CompatWithoutUrl})
  {
    defects := [];
    if IsBlank(key) {
      defects := defects + [EmptyKey];
    } else if HasSpace(key) {
      defects := defects + [SpacedKey];
    }
    if IsBlank(m.modelName) {
      defects := defects + [NoModelName];
    }
    if m.wireFormat == Rooms.Compat && m.baseUrl.None? {
      defects := defects + [CompatWithoutUrl];
    }
  }

  method ValidateUrlText(key: string, m: Model) returns (defects: seq<Defect>, url: Option<ParsedUrl>)
    ensures Finds(key, m, defects, {EmptyUrl, UnparsedUrl}) && url == ParsedBaseUrl(m)
  {
    defects, url := [], None;
    if m.baseUrl.Some? {
      if IsBlank(m.baseUrl.value.text) {
        defects := [EmptyUrl];
      } else {
        url := m.baseUrl.value.parsed;
        if url.None? {
          defects := [UnparsedUrl];
        }
      }
    }
  }

  method ValidateSecret(key: string, m: Model) returns (defects: seq<Defect>, hasSecret: bool)
    ensures Finds(key, m, defects, {EmptySecret, ReservedSecret, MissingSecret}) && hasSecret == HasSecret(m)
  {
    defects, hasSecret := [], false;
    if m.apiKeySecret.Some? {
      if IsBlank(m.apiKeySecret.value) {
        defects := [EmptySecret];
      } else if Secrets.IsReservedName(m.apiKeySecret.value) {
        defects := [ReservedSecret];
      } else {
        hasSecret := true;
      }
    }
    if m.wireFormat != Rooms.Compat && !hasSecret {
      if m.apiKeySecret.None? {
        defects := defects + [MissingSecret];
      }
    }
  }

  method ValidateUrl(key: string, m: Model, url: Option<ParsedUrl>, hasSecret: bool) returns (defects: seq<Defect>)
    requires url == ParsedBaseUrl(m) && hasSecret == HasSecret(m)
    ensures Finds(key, m, defects, {UrlCredentials, InsecureWithSecret, InsecureUrl})
  {
    defects := [];
    if url.None? {
      return;
    }
    if url.value.embedsCredentials {
      defects := defects + [UrlCredentials];
    }
    if url.value.scheme != "https" {
      if hasSecret {
        defects := defects + [InsecureWithSecret];
      } else if || m.wireFormat != Rooms.Compat
                || url.value.scheme != "http"
                || (!url.value.loopback && !m.allowInsecureHttp) {
        defects := defects + [InsecureUrl];
      }
    }
  }

  /** Notes the pins of one model; `seen` are the pins of the models before it. */
  method CheckPins(chatIds: seq<int>, pinned: set<int>, ghost seen: seq<int>)
      returns (problems: seq<Problem>, now: set<int>)
    requires forall chat :: chat in pinned <==> chat in seen
    ensures forall chat :: chat in now <==> chat in seen + chatIds
    ensures forall p :: p in problems ==> p.PinnedTwice? && multiset(seen + chatIds)[p.chat] > 1
    ensures forall chat :: multiset(seen)[chat] <= 1 && multiset(seen + chatIds)[chat] > 1 ==>
              PinnedTwice(chat) in problems
  {
    problems, now := [], pinned;
    for i := 0 to |chatIds|
      invariant forall chat :: chat in now <==> chat in seen + chatIds[..i]
      invariant forall p :: p in problems ==> p.PinnedTwice? && multiset(seen + chatIds[..i])[p.chat] > 1
      invariant forall chat :: multiset(seen)[chat] <= 1 && multiset(seen + chatIds[..i])[chat] > 1 ==>
                  PinnedTwice(chat) in problems
    {
      var chat := chatIds[i];
      assert seen + chatIds[..i + 1] == seen + chatIds[..i] + [chat];
      if chat in now {
        problems := problems + [PinnedTwice(chat)];
      }
      now := now + {chat};
    }
    assert chatIds[..|chatIds|] == chatIds;
  }

  lemma {:induction false} PinsSnoc(models: seq<Entry>, e: Entry)
    ensures Pins(models + [e]) == Pins(models) + e.model.chatIds
  {
    if models == [] {
      assert models + [e] == [e];
      assert [e][1..] == [];
    } else {
      assert (models + [e])[1..] == models[1..] + [e];
      PinsSnoc(models[1..], e);
      assert models[0].model.chatIds + (Pins(models[1..]) + e.model.chatIds)
          == models[0].model.chatIds + Pins(models[1..]) + e.model.chatIds;
    }
  }

  function Defects(key: string, defects: seq<Defect>): seq<Problem> {
    seq(|defects|, i requires 0 <= i < |defects| => Defective(key, defects[i]))
  }

  /** One more model: the problems of the longer list are those of the shorter one, the defects of
      the model, and the rooms its pins repeat. */
  lemma {:induction false} OneMoreModel(models: seq<Entry>, e: Entry, problem: Problem)
    ensures ModelsHaveProblem(models + [e], problem) <==>
      || ModelsHaveProblem(models, problem)
      || (problem.Defective? && problem.key == e.key && HasDefect(e.key, e.model, problem.defect))
      || (problem.PinnedTwice? && multiset(Pins(models) + e.model.chatIds)[problem.chat] > 1)
  {
    PinsSnoc(models, e);
    if problem.Defective? {
      assert (models + [e])[|models|] == e;
      assert forall i :: 0 <= i < |models| ==> (models + [e])[i] == models[i];
    }
  }

  /** Reports every problem, and nothing that is none. */
  method Validate(c: Config) returns (problems: seq<Problem>)
    ensures forall problem :: problem in problems <==> HasProblem(c, problem)
    ensures problems == [] <==> WellFormed(c)
  {
    problems := [];
    if !HasKey(c.models, c.defaultModel) {
      problems := [UnknownDefault];
    }
    ghost var first := problems;
    var pinned: set<int> := {};
    for i := 0 to |c.models|
      invariant forall chat :: chat in pinned <==> chat in Pins(c.models[..i])
      invariant forall problem :: problem in problems <==> problem in first || ModelsHaveProblem(c.models[..i], problem)
    {
      var e := c.models[i];
      assert c.models[..i + 1] == c.models[..i] + [e];
      PinsSnoc(c.models[..i], e);
      var more, now := ValidateEntry(e, pinned, c.models[..i]);
      problems, pinned := problems + more, now;
    }
    assert c.models[..|c.models|] == c.models;
    EmptyIffWellFormed(c, problems);
  }

  lemma {:induction false} EmptyIffWellFormed(c: Config, problems: seq<Problem>)
    requires forall problem :: problem in problems <==> HasProblem(c, problem)
    ensures problems == [] <==> WellFormed(c)
  {
    NoProblemsIffWellFormed(c);
    assert problems != [] ==> HasProblem(c, problems[0]);
  }

  method ValidateEntry(
      e: Entry, pinned: set<int>, ghost before: seq<Entry>) returns (problems: seq<Problem>, now: set<int>)
    requires forall chat :: chat in pinned <==> chat in Pins(before)
    ensures forall chat :: chat in now <==> chat in Pins(before) + e.model.chatIds
    ensures forall problem :: problem in problems ==> ModelsHaveProblem(before + [e], problem)
    ensures forall problem :: ModelsHaveProblem(before + [e], problem) ==>
      problem in problems || ModelsHaveProblem(before, problem)
  {
    var defects := ValidateModel(e.key, e.model);
    var repeated;
    repeated, now := CheckPins(e.model.chatIds, pinned, Pins(before));
    problems := Defects(e.key, defects) + repeated;
    forall problem
      ensures problem in problems ==> ModelsHaveProblem(before + [e], problem)
      ensures ModelsHaveProblem(before + [e], problem) ==> problem in problems || ModelsHaveProblem(before, problem)
    {
      OneMoreModel(before, e, problem);
      DefectsMember(e.key, defects, problem);
    }
  }

  lemma {:induction false} DefectsMember(key: string, defects: seq<Defect>, problem: Problem)
    ensures problem in Defects(key, defects) <==>
      problem.Defective? && problem.key == key && problem.defect in defects
  {
    if problem.Defective? && problem.key == key && problem.defect in defects {
      var i :| 0 <= i < |defects| && defects[i] == problem.defect;
      assert Defects(key, defects)[i] == problem;
    }
  }

  /** The checks pass exactly on the well-formed configurations. */
  lemma {:induction false} NoProblemsIffWellFormed(c: Config)
    ensures WellFormed(c) <==> forall problem :: !HasProblem(c, problem)
  {
    if forall problem :: !HasProblem(c, problem) {
      assert !HasProblem(c, UnknownDefault);
      forall i, defect | 0 <= i < |c.models|
        ensures !HasDefect(c.models[i].key, c.models[i].model, defect)
      {
        assert !HasProblem(c, Defective(c.models[i].key, defect));
      }
      forall chat
        ensures multiset(Pins(c.models))[chat] <= 1
      {
        assert !HasProblem(c, PinnedTwice(chat));
      }
    }
  }

  // ---------- What an accepted model looks like ----------

  predicate NoWhitespace(s: string) {
    forall i :: 0 <= i < |s| ==> !IsWhitespace(s[i])
  }

  /** Names: the key is not blank and has no white space, the model's own name is not blank. */
  predicate NamesAccepted(key: string, m: Model) {
    !IsBlank(key) && NoWhitespace(key) && !IsBlank(m.modelName)
  }

  /** Secret: every provider but a compatible one names one; a name given is neither blank nor reserved. */
  predicate SecretAccepted(m: Model) {
    match m.apiKeySecret
    case None => m.wireFormat == Rooms.Compat
    case Some(name) => !IsBlank(name) && !("__tellm_prefer_credentials_file__:" <= name)
  }

  /** Address: a compatible provider gives one; one given parses and embeds no credentials; it is
      https, or else plain http of a compatible provider without a secret, to this machine or with
      permission. */
  predicate AddressAccepted(m: Model) {
    match m.baseUrl
    case None => m.wireFormat != Rooms.Compat
    case Some(url) =>
      && !IsBlank(url.text) && url.parsed.Some? && !url.parsed.value.embedsCredentials
      && (|| url.parsed.value.scheme == "https"
          || (&& url.parsed.value.scheme == "http" && m.wireFormat == Rooms.Compat && m.apiKeySecret.None?
              && (url.parsed.value.loopback || m.allowInsecureHttp)))
  }

  /** The defects looked for are exactly what these three demands exclude. */
  lemma {:induction false} SoundExactly(e: Entry)
    ensures Sound(e) <==> Accepted(e)
  {
    if Sound(e) {
      assert !HasDefect(e.key, e.model, EmptyKey) && !HasDefect(e.key, e.model, SpacedKey);
      assert !HasDefect(e.key, e.model, NoModelName) && !HasDefect(e.key, e.model, CompatWithoutUrl);
      assert !HasDefect(e.key, e.model, EmptyUrl) && !HasDefect(e.key, e.model, UnparsedUrl);
      assert !HasDefect(e.key, e.model, EmptySecret) && !HasDefect(e.key, e.model, ReservedSecret);
      assert !HasDefect(e.key, e.model, MissingSecret) && !HasDefect(e.key, e.model, UrlCredentials);
      assert !HasDefect(e.key, e.model, InsecureWithSecret) && !HasDefect(e.key, e.model, InsecureUrl);
    }
  }

  predicate Accepted(e: Entry) {
    NamesAccepted(e.key, e.model) && SecretAccepted(e.model) && AddressAccepted(e.model)
  }

  /** A configuration is accepted exactly if its default model is configured, every model is as
      demanded, and no chat is pinned twice. */
  lemma {:induction false} WellFormedExactly(c: Config)
    ensures WellFormed(c) <==>
      && (exists i :: 0 <= i < |c.models| && c.models[i].key == c.defaultModel)
      && (forall i :: 0 <= i < |c.models| ==> Accepted(c.models[i]))
      && PinnedOnce(c.models)
  {
    forall e: Entry
      ensures Sound(e) <==> Accepted(e)
    {
      SoundExactly(e);
    }
  }
}
