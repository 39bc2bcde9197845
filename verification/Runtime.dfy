/** The commands that change who is allowed and which model a room uses. The configuration lives in
    memory and on disk, the access decisions in a third copy; a failed save is compensated. */
module Runtime {
  import opened Prelude
  import opened Text
  import opened Access
  import opened Configuration
  import Rooms
  import Secrets

  /** `selected` holds the model each room chose for itself. */
  datatype State = State(config: Config, disk: Config, access: AccessView, selected: map<int, string>)

  // ---------- Editing the configuration ----------

  function Without(chats: seq<int>, chat: int): seq<int> {
    if chats == [] then []
    else (if chats[0] == chat then [] else [chats[0]]) + Without(chats[1..], chat)
  }

  function Unpinned(models: seq<Entry>, chat: int): seq<Entry> {
    seq(|models|, i requires 0 <= i < |models| =>
      models[i].(model := models[i].model.(chatIds := Without(models[i].model.chatIds, chat))))
  }

  function PinnedTo(models: seq<Entry>, key: string, chat: int): seq<Entry> {
    seq(|models|, i requires 0 <= i < |models| =>
      if models[i].key == key
      then models[i].(model := models[i].model.(chatIds := models[i].model.chatIds + [chat]))
      else models[i])
  }

  /** The first model, in key order, that the chat is pinned to. */
  function PinnedKey(models: seq<Entry>, chat: int): Option<string> {
    if models == [] then None
    else if chat in models[0].model.chatIds then Some(models[0].key)
    else PinnedKey(models[1..], chat)
  }

  function KeyIgnoringCase(models: seq<Entry>, requested: string): Option<string> {
    if models == [] then None
    else if EqualsIgnoringCase(models[0].key, requested) then Some(models[0].key)
    else KeyIgnoringCase(models[1..], requested)
  }

  function SelectedModelKey(c: Config, selected: map<int, string>, chat: int): string {
    PinnedKey(c.models, chat).GetOr(if chat in selected then selected[chat] else c.defaultModel)
  }

  // ---------- The provider catalog ----------

  function Preset(
      key: string, wireFormat: Rooms.WireFormat, modelName: string, url: Option<string>, secret: string): Entry {
    var baseUrl := if url.None? then None else Some(BaseUrl(url.value, Some(ParsedUrl("https", false, false))));
    Entry(key, Model(wireFormat, modelName, baseUrl, false, Some(secret), []))
  }

  const PRESETS: seq<Entry> := [
    Preset("anthropic", Rooms.Anthropic, "claude-opus-5", None, "anthropic_api_key"),
    Preset("openai", Rooms.Responses, "gpt-5.6-sol", None, "openai_api_key"),
    Preset("xai", Rooms.Responses, "grok-4.5", Some("https://api.x.ai/v1"), "xai_api_key"),
    Preset("meta", Rooms.Responses, "muse-spark-1.1", Some("https://api.meta.ai/v1"), "meta_model_api_key"),
    Preset("gemini", Rooms.Gemini, "gemini-3.6-flash", None, "gemini_api_key")]

  function PresetByKey(presets: seq<Entry>, requested: string): Option<Entry> {
    if presets == [] then None
    else if EqualsIgnoringCase(presets[0].key, requested) then Some(presets[0])
    else PresetByKey(presets[1..], requested)
  }

  predicate Before(a: string, b: string) {
    if b == "" then false
    else if a == "" then true
    else if a[0] == b[0] then Before(a[1..], b[1..])
    else a[0] < b[0]
  }

  /** Adds an entry at its place in the key order. */
  function Inserted(models: seq<Entry>, e: Entry): seq<Entry> {
    if models == [] || Before(e.key, models[0].key) then [e] + models
    else [models[0]] + Inserted(models[1..], e)
  }

  // ---------- What each command does ----------

  /** A change of configuration whose save succeeded. */
  function Saved(s: State, after: Config): State {
    s.(config := after, disk := after)
  }

  function AllowStep(s: State, target: int, saved: bool): State {
    var allowed := s.(access := Allow(s.access, target));
    if target in s.config.allowedChatIds then allowed
    else if saved then Saved(allowed, s.config.(allowedChatIds := s.config.allowedChatIds + [target]))
    else s
  }

  function DenyInConfig(c: Config, target: int): Config {
    c.(allowedChatIds := Without(c.allowedChatIds, target), models := Unpinned(c.models, target))
  }

  predicate Mentions(c: Config, chat: int) {
    chat in c.allowedChatIds || chat in Pins(c.models)
  }

  function DenyStep(s: State, target: int, saved: bool): State {
    var denied := DenyChat(s.access, target);
    if Mentions(s.config, target) && !saved then
      s.(access := if target in s.access.allowed then Allow(denied, target) else denied)
    else
      var after := DenyInConfig(s.config, target);
      s.(config := after, disk := if Mentions(s.config, target) then after else s.disk,
         access := denied, selected := s.selected - {target})
  }

  function PairedConfig(c: Config, chat: int, pairer: Option<int>): Config {
    c.(allowedChatIds := if chat in c.allowedChatIds then c.allowedChatIds else c.allowedChatIds + [chat],
       ownerUserIds := if pairer.None? || pairer.value in c.ownerUserIds then c.ownerUserIds
                       else c.ownerUserIds + [pairer.value])
  }

  function PairStep(
      s: State, chat: int, code: seq<Byte>, pairer: Option<int>, now: Time, minted: seq<Byte>, saved: bool): State {
    var (access, result) := Attempt(s.access, chat, code, now, minted);
    if !result.Paired? then s.(access := access)
    else
      var after := PairedConfig(s.config, chat, pairer);
      if after == s.config then s.(access := access)
      else if !saved then s.(access := DenyChat(access, chat))
      else
        var becameOwner := pairer.Some? && pairer.value !in s.config.ownerUserIds;
        Saved(s.(access := if becameOwner then access.(owners := access.owners + {pairer.value}) else access), after)
  }

  function AddedStep(s: State, chat: int, adder: Option<int>, now: Time, minted: seq<Byte>, saved: bool): State {
    if adder.Some? && adder.value in s.config.ownerUserIds then AllowStep(s, chat, saved)
    else if chat in s.access.allowed then s
    else s.(access := Ensured(s.access, chat, now, minted))
  }

  function PinStep(s: State, chat: int, key: string, saved: bool): State {
    if !saved then s
    else Saved(s, s.config.(models := PinnedTo(Unpinned(s.config.models, chat), key, chat)))
  }

  function UnpinStep(s: State, chat: int, saved: bool): State {
    if chat !in Pins(s.config.models) || !saved then s
    else
      var allowed := s.config.allowedChatIds;
      Saved(s, s.config.(models := Unpinned(s.config.models, chat),
                         allowedChatIds := if chat in allowed then allowed else allowed + [chat]))
  }

  function AddModelStep(s: State, requested: string, saved: bool): State {
    if KeyIgnoringCase(s.config.models, requested).Some? then s
    else
      match PresetByKey(PRESETS, requested)
      case None => s
      case Some(preset) =>
        if HasKey(s.config.models, preset.key) || !saved then s
        else Saved(s, s.config.(models := Inserted(s.config.models, preset)))
  }

  datatype Command =
    | AllowChat(target: int)
    | DenyRoom(target: int)
    | PinModel(pinKey: Option<string>)
    | UnpinModel
    | AddModel(presetKey: string)
    | SetModel(modelKey: string)

  datatype Event =
    | Message(chat: int, sender: Option<int>, sentAt: Time, now: Time, command: Command, saved: bool)
    | PairMessage(chat: int, code: seq<Byte>, pairer: Option<int>, now: Time, minted: seq<Byte>, saved: bool)
    | Added(chat: int, adder: Option<int>, now: Time, minted: seq<Byte>, saved: bool)

  predicate IsOwner(s: State, sender: Option<int>, sentAt: Time, now: Time) {
    sender.Some? && sender.value in s.access.owners && now <= sentAt + STALE_AFTER
  }

  /** The guards a command passes before it acts. */
  function CommandStep(s: State, chat: int, owner: bool, command: Command, saved: bool): State {
    match command
    case AllowChat(target) => if owner then AllowStep(s, target, saved) else s
    case DenyRoom(target) => if owner then DenyStep(s, target, saved) else s
    case PinModel(requested) =>
      var key := requested.GetOr(SelectedModelKey(s.config, s.selected, chat));
      if owner && HasKey(s.config.models, key) then PinStep(s, chat, key, saved) else s
    case UnpinModel => if owner then UnpinStep(s, chat, saved) else s
    case AddModel(requested) => if owner then AddModelStep(s, requested, saved) else s
    case SetModel(key) =>
      if PinnedKey(s.config.models, chat).None? && HasKey(s.config.models, key) && saved
      then s.(selected := s.selected[chat := key]) else s
  }

  function Step(s: State, e: Event): State {
    match e
    case Message(chat, sender, sentAt, now, command, saved) =>
      if chat in s.access.allowed then CommandStep(s, chat, IsOwner(s, sender, sentAt, now), command, saved) else s
    case PairMessage(chat, code, pairer, now, minted, saved) => PairStep(s, chat, code, pairer, now, minted, saved)
    case Added(chat, adder, now, minted, saved) => AddedStep(s, chat, adder, now, minted, saved)
  }

  function Run(s: State, events: seq<Event>): State
    decreases events
  {
    if events == [] then s else Run(Step(s, events[0]), events[1..])
  }

  // ---------- The program ----------

  class Service {
    var config: Config
    var disk: Config
    const access: AccessControl
    var selected: map<int, string>

    /** Who was allowed when a configuration was last handed to the writer. */
    ghost var allowedAtSave: set<int>

    ghost function View(): State
      reads this, access
    {
      State(config, disk, access.View(), selected)
    }

    constructor (config: Config, selected: map<int, string>)
      ensures fresh(access) && View() == Started(config, selected)
    {
      this.config, disk, this.selected := config, config, selected;
      access := new AccessControl(
        set x | x in config.allowedChatIds, set x | x in config.ownerUserIds, set x | x in Pins(config.models));
    }

    /** The outcome of a save is not ours to decide: `saved` is what the writer reports. */
    method SaveConfig(saved: bool) returns (ok: bool)
      modifies this`disk, this`allowedAtSave
      ensures ok == saved && disk == if saved then config else old(disk)
      ensures allowedAtSave == access.allowedChatIds
    {
      allowedAtSave := access.allowedChatIds;
      if saved {
        disk := config;
      }
      ok := saved;
    }

    method AllowChatInConfig(chat: int) returns (changed: bool)
      modifies this`config
      ensures changed <==> chat !in old(config).allowedChatIds
      ensures config == if changed then old(config).(allowedChatIds := old(config).allowedChatIds + [chat])
                        else old(config)
    {
      if chat in config.allowedChatIds {
        return false;
      }
      config := config.(allowedChatIds := config.allowedChatIds + [chat]);
      return true;
    }

    method HandleAllowChat(target: int, saved: bool) returns (ok: bool)
      modifies this, access
      ensures View() == AllowStep(old(View()), target, saved)
      ensures ok <==> saved || target in old(config).allowedChatIds
    {
      var before := config;
      var changed := AllowChatInConfig(target);
      if changed {
        ok := SaveConfig(saved);
        if !ok {
          config := before;
          return false;
        }
      }
      access.AllowChat(target);
      return true;
    }

    method DenyChatInConfig(chat: int) returns (changed: bool)
      modifies this`config
      ensures config == DenyInConfig(old(config), chat)
      ensures changed <==> Mentions(old(config), chat)
    {
      var allowed := Without(config.allowedChatIds, chat);
      WithoutShortens(config.allowedChatIds, chat);
      var allowedRemoved := |allowed| != |config.allowedChatIds|;
      var models, pinsRemoved := RemovePins(config.models, chat);
      config := config.(allowedChatIds := allowed, models := models);
      changed := allowedRemoved || pinsRemoved;
    }

    /** Access closes before the save is even tried; a failed save reopens it. */
    method HandleDenyChat(target: int, saved: bool) returns (ok: bool)
      modifies this, access
      ensures View() == DenyStep(old(View()), target, saved)
      ensures ok <==> saved || !Mentions(old(config), target)
      ensures Mentions(old(config), target) ==> allowedAtSave == old(access.allowedChatIds) - {target}
    {
      var before := config;
      var changed := DenyChatInConfig(target);
      var wasAllowed := target in access.allowedChatIds;
      access.Deny(target);
      if changed {
        ok := SaveConfig(saved);
        if !ok {
          config := before;
          if wasAllowed {
            access.AllowChat(target);
          }
          return false;
        }
      }
      selected := selected - {target};
      return true;
    }

    method PersistPairedChat(chat: int, pairer: Option<int>, saved: bool) returns (ok: bool, becameOwner: bool)
      modifies this`config, this`disk, this`allowedAtSave
      ensures var after := PairedConfig(old(config), chat, pairer);
        && (ok <==> saved || after == old(config))
        && config == (if ok then after else old(config))
        && disk == (if saved && after != old(config) then after else old(disk))
      ensures becameOwner <==> ok && pairer.Some? && pairer.value !in old(config).ownerUserIds
    {
      var before := config;
      var changed := false;
      if chat !in config.allowedChatIds {
        config := config.(allowedChatIds := config.allowedChatIds + [chat]);
        changed := true;
        assert |config.allowedChatIds| > |before.allowedChatIds|;
      }
      becameOwner := false;
      if pairer.Some? && pairer.value !in config.ownerUserIds {
        config := config.(ownerUserIds := config.ownerUserIds + [pairer.value]);
        becameOwner, changed := true, true;
        assert |config.ownerUserIds| > |before.ownerUserIds|;
      }
      if changed {
        ok := SaveConfig(saved);
        if !ok {
          config := before;
          return false, false;
        }
      }
      ok := true;
    }

    /** Pairing opens access first; if it cannot be saved, access closes again. */
    method HandlePairAttempt(chat: int, code: seq<Byte>, pairer: Option<int>, now: Time, minted: seq<Byte>, saved: bool)
        returns (result: PairingAttempt)
      modifies this, access
      ensures View() == PairStep(old(View()), chat, code, pairer, now, minted, saved)
      ensures result == Attempt(old(access.View()), chat, code, now, minted).1
    {
      result := access.AttemptPair(chat, code, now, minted);
      if result.Paired? {
        var ok, becameOwner := PersistPairedChat(chat, pairer, saved);
        if !ok {
          access.Deny(chat);
        } else if becameOwner {
          access.AddOwner(pairer.value);
        }
      }
    }

    method HandleMembershipChange(chat: int, adder: Option<int>, now: Time, minted: seq<Byte>, saved: bool)
      modifies this, access
      ensures View() == AddedStep(old(View()), chat, adder, now, minted, saved)
    {
      if adder.Some? && adder.value in config.ownerUserIds {
        var _ := HandleAllowChat(chat, saved);
      } else {
        var _ := access.ArmRoom(chat, now, minted);
      }
    }

    method PinModel(chat: int, key: string, saved: bool) returns (ok: bool)
      modifies this`config, this`disk, this`allowedAtSave
      ensures View() == PinStep(old(View()), chat, key, saved) && ok == saved
    {
      var before := config;
      var models, _ := RemovePins(config.models, chat);
      config := config.(models := PinnedTo(models, key, chat));
      ok := SaveConfig(saved);
      if !ok {
        config := before;
      }
    }

    method UnpinModel(chat: int, saved: bool) returns (ok: bool)
      modifies this`config, this`disk, this`allowedAtSave
      ensures View() == UnpinStep(old(View()), chat, saved)
      ensures ok <==> saved || chat !in Pins(old(config).models)
    {
      var before := config;
      var models, wasPinned := RemovePins(config.models, chat);
      if !wasPinned {
        UnpinnedNothing(config.models, chat);
        return true;
      }
      config := config.(models := models);
      if chat !in config.allowedChatIds {
        config := config.(allowedChatIds := config.allowedChatIds + [chat]);
      }
      ok := SaveConfig(saved);
      if !ok {
        config := before;
      }
    }

    method AddModel(requested: string, saved: bool) returns (ok: bool)
      modifies this`config, this`disk, this`allowedAtSave
      ensures View() == AddModelStep(old(View()), requested, saved)
    {
      if KeyIgnoringCase(config.models, requested).Some? {
        return true;
      }
      var preset := PresetByKey(PRESETS, requested);
      if preset.None? || HasKey(config.models, preset.value.key) {
        return true;
      }
      var before := config;
      config := config.(models := Inserted(config.models, preset.value));
      ok := SaveConfig(saved);
      if !ok {
        config := before;
      }
    }

    method HandleCommand(chat: int, sender: Option<int>, sentAt: Time, now: Time, command: Command, saved: bool)
      modifies this, access
      ensures View() == Step(old(View()), Message(chat, sender, sentAt, now, command, saved))
    {
      if chat !in access.allowedChatIds {
        return;
      }
      var privileged := access.CheckPrivileged(sender, sentAt, now);
      match command
      case AllowChat(target) =>
        if privileged.Allowed? {
          var _ := HandleAllowChat(target, saved);
        }
      case DenyRoom(target) =>
        if privileged.Allowed? {
          var _ := HandleDenyChat(target, saved);
        }
      case PinModel(requested) =>
        var key := requested.GetOr(SelectedModelKey(config, selected, chat));
        if privileged.Allowed? && HasKey(config.models, key) {
          var _ := PinModel(chat, key, saved);
        }
      case UnpinModel =>
        if privileged.Allowed? {
          var _ := UnpinModel(chat, saved);
        }
      case AddModel(requested) =>
        if privileged.Allowed? {
          var _ := AddModel(requested, saved);
        }
      case SetModel(key) =>
        if PinnedKey(config.models, chat).None? && HasKey(config.models, key) && saved {
          selected := selected[chat := key];
        }
    }
  }

  /** Takes the chat out of every model's pins, and says whether any had it. */
  method RemovePins(models: seq<Entry>, chat: int) returns (after: seq<Entry>, removed: bool)
    ensures after == Unpinned(models, chat)
    ensures removed <==> chat in Pins(models)
  {
    after, removed := [], false;
    for i := 0 to |models|
      invariant after == Unpinned(models[..i], chat)
      invariant removed <==> chat in Pins(models[..i])
    {
      var chats := models[i].model.chatIds;
      var kept := Without(chats, chat);
      WithoutShortens(chats, chat);
      assert models[..i + 1] == models[..i] + [models[i]];
      PinsSnoc(models[..i], models[i]);
      after := after + [models[i].(model := models[i].model.(chatIds := kept))];
      removed := removed || |kept| != |chats|;
    }
    assert models[..|models|] == models;
  }

  lemma {:induction false} WithoutShortens(chats: seq<int>, chat: int)
    ensures |Without(chats, chat)| <= |chats|
    ensures |Without(chats, chat)| == |chats| <==> chat !in chats
  {
    if chats != [] {
      WithoutShortens(chats[1..], chat);
    }
  }

  // ---------- Effects on pins and keys ----------

  lemma {:induction false} WithoutMembers(chats: seq<int>, chat: int, other: int)
    ensures other in Without(chats, chat) <==> other in chats && other != chat
    ensures multiset(Without(chats, chat))[other] == if other == chat then 0 else multiset(chats)[other]
  {
    if chats != [] {
      assert chats == [chats[0]] + chats[1..];
      WithoutMembers(chats[1..], chat, other);
    }
  }

  lemma {:induction false} WithoutConcat(a: seq<int>, b: seq<int>, chat: int)
    ensures Without(a + b, chat) == Without(a, chat) + Without(b, chat)
  {
    if a == [] {
      assert a + b == b;
    } else {
      assert (a + b)[1..] == a[1..] + b;
      WithoutConcat(a[1..], b, chat);
    }
  }

  lemma {:induction false} PinsOfUnpinned(models: seq<Entry>, chat: int)
    ensures Pins(Unpinned(models, chat)) == Without(Pins(models), chat)
  {
    if models != [] {
      assert Unpinned(models, chat)[1..] == Unpinned(models[1..], chat);
      PinsOfUnpinned(models[1..], chat);
      WithoutConcat(models[0].model.chatIds, Pins(models[1..]), chat);
    }
  }

  lemma {:induction false} PinsOfPinnedTo(models: seq<Entry>, key: string, chat: int)
    requires Keyed(models)
    ensures multiset(Pins(PinnedTo(models, key, chat)))
         == multiset(Pins(models)) + if HasKey(models, key) then multiset{chat} else multiset{}
  {
    if models != [] {
      var rest := models[1..];
      assert PinnedTo(models, key, chat)[1..] == PinnedTo(rest, key, chat);
      KeyedRest(models, key);
      PinsOfPinnedTo(rest, key, chat);
    }
  }

  lemma {:induction false} KeyedRest(models: seq<Entry>, key: string)
    requires models != [] && Keyed(models)
    ensures var rest := models[1..];
      && Keyed(rest)
      && (HasKey(models, key) <==> models[0].key == key || HasKey(rest, key))
      && (models[0].key == key ==> !HasKey(rest, key))
  {
    var rest := models[1..];
    assert forall i :: 0 <= i < |rest| ==> rest[i] == models[i + 1];
    if HasKey(models, key) && models[0].key != key {
      var i :| 0 <= i < |models| && models[i].key == key;
      assert rest[i - 1].key == key;
    }
  }

  lemma {:induction false} PinsOfInserted(models: seq<Entry>, e: Entry)
    ensures multiset(Pins(Inserted(models, e))) == multiset(Pins(models)) + multiset(e.model.chatIds)
  {
    if models == [] || Before(e.key, models[0].key) {
      assert ([e] + models)[1..] == models;
    } else {
      PinsOfInserted(models[1..], e);
      assert Inserted(models, e)[1..] == Inserted(models[1..], e);
    }
  }

  lemma {:induction false} MembersOfInserted(models: seq<Entry>, e: Entry, i: nat)
    requires i < |Inserted(models, e)|
    ensures Inserted(models, e)[i] == e || Inserted(models, e)[i] in models
  {
    if models != [] && !Before(e.key, models[0].key) && i > 0 {
      MembersOfInserted(models[1..], e, i - 1);
    }
  }

  lemma {:induction false} InsertedKeyed(models: seq<Entry>, e: Entry)
    requires Keyed(models) && !HasKey(models, e.key)
    ensures Keyed(Inserted(models, e))
  {
    if models != [] && !Before(e.key, models[0].key) {
      var rest := models[1..];
      assert forall i :: 0 <= i < |rest| ==> rest[i] == models[i + 1];
      InsertedKeyed(rest, e);
      var later := Inserted(rest, e);
      forall i | 0 <= i < |later|
        ensures later[i].key != models[0].key
      {
        MembersOfInserted(rest, e, i);
      }
    }
  }

  /** What matters of an entry for everything but its pins. */
  ghost predicate SameButPins(a: seq<Entry>, b: seq<Entry>) {
    |a| == |b| && forall i :: 0 <= i < |a| ==> b[i] == a[i].(model := a[i].model.(chatIds := b[i].model.chatIds))
  }

  lemma {:induction false} PinsDoNotMatter(a: seq<Entry>, b: seq<Entry>)
    requires SameButPins(a, b) && Keyed(a) && forall i :: 0 <= i < |a| ==> Sound(a[i])
    ensures Keyed(b)
    ensures forall i :: 0 <= i < |b| ==> Sound(b[i])
    ensures forall key :: HasKey(a, key) ==> HasKey(b, key)
  {
    forall i, defect | 0 <= i < |b|
      ensures !HasDefect(b[i].key, b[i].model, defect)
    {
      assert Sound(a[i]) && !HasDefect(a[i].key, a[i].model, defect);
    }
    forall key | HasKey(a, key)
      ensures HasKey(b, key)
    {
      var i :| 0 <= i < |a| && a[i].key == key;
      assert b[i].key == key;
    }
  }

  // ---------- The invariant ----------

  ghost function AllowedBy(c: Config): set<int> {
    (set x | x in c.allowedChatIds) + (set x | x in Pins(c.models))
  }

  ghost function OwnersBy(c: Config): set<int> {
    set x | x in c.ownerUserIds
  }

  /** The access decisions are those a restart would build from the configuration. */
  ghost predicate Rebuilds(access: AccessView, c: Config) {
    access.allowed == AllowedBy(c) && access.owners == OwnersBy(c)
  }

  ghost predicate ValidConfig(c: Config) {
    WellFormed(c) && Keyed(c.models)
  }

  ghost predicate Inv(s: State) {
    && s.disk == s.config
    && Rebuilds(s.access, s.config)
    && ValidConfig(s.config)
  }

  lemma {:induction false} UnpinnedValid(c: Config, chat: int, allowed: seq<int>)
    requires ValidConfig(c)
    ensures var after := c.(models := Unpinned(c.models, chat), allowedChatIds := allowed);
      && ValidConfig(after)
      && (forall key :: HasKey(c.models, key) ==> HasKey(after.models, key))
      && (forall x :: x in Pins(after.models) <==> x in Pins(c.models) && x != chat)
      && multiset(Pins(after.models))[chat] == 0
  {
    var models := Unpinned(c.models, chat);
    assert SameButPins(c.models, models);
    PinsDoNotMatter(c.models, models);
    forall x
      ensures x in Pins(models) <==> x in Pins(c.models) && x != chat
      ensures multiset(Pins(models))[x] == if x == chat then 0 else multiset(Pins(c.models))[x]
    {
      UnpinnedKeepsOthers(c.models, chat, x);
    }
  }

  lemma {:induction false} UnpinnedKeepsOthers(models: seq<Entry>, chat: int, other: int)
    ensures other in Pins(Unpinned(models, chat)) <==> other in Pins(models) && other != chat
    ensures multiset(Pins(Unpinned(models, chat)))[other]
         == if other == chat then 0 else multiset(Pins(models))[other]
  {
    PinsOfUnpinned(models, chat);
    WithoutMembers(Pins(models), chat, other);
  }

  lemma {:induction false} PinnedValid(c: Config, key: string, chat: int)
    requires ValidConfig(c) && HasKey(c.models, key) && multiset(Pins(c.models))[chat] == 0
    ensures var after := c.(models := PinnedTo(c.models, key, chat));
      && ValidConfig(after)
      && (forall k :: HasKey(c.models, k) ==> HasKey(after.models, k))
      && (forall x :: x in Pins(after.models) <==> x in Pins(c.models) || x == chat)
  {
    var models := PinnedTo(c.models, key, chat);
    assert SameButPins(c.models, models);
    PinsDoNotMatter(c.models, models);
    PinsOfPinnedTo(c.models, key, chat);
    forall x
      ensures x in Pins(models) <==> x in Pins(c.models) || x == chat
    {
      assert x in Pins(models) <==> x in multiset(Pins(models));
      assert x in Pins(c.models) <==> x in multiset(Pins(c.models));
    }
  }

  lemma {:induction false} InsertedSound(models: seq<Entry>, e: Entry)
    requires Sound(e) && forall i :: 0 <= i < |models| ==> Sound(models[i])
    ensures forall i :: 0 <= i < |Inserted(models, e)| ==> Sound(Inserted(models, e)[i])
  {
    if models != [] && !Before(e.key, models[0].key) {
      InsertedSound(models[1..], e);
    }
  }

  lemma {:induction false} InsertedKeepsKeys(models: seq<Entry>, e: Entry, key: string)
    requires HasKey(models, key)
    ensures HasKey(Inserted(models, e), key)
  {
    if !Before(e.key, models[0].key) {
      var inserted := Inserted(models, e);
      if models[0].key == key {
        assert inserted[0].key == key;
      } else {
        var i :| 0 <= i < |models| && models[i].key == key;
        assert models[1..][i - 1].key == key;
        InsertedKeepsKeys(models[1..], e, key);
        var j :| 0 <= j < |inserted[1..]| && inserted[1..][j].key == key;
        assert inserted[j + 1].key == key;
      }
    } else {
      var i :| 0 <= i < |models| && models[i].key == key;
      assert ([e] + models)[i + 1].key == key;
    }
  }

  lemma {:induction false} InsertedKeepsPins(models: seq<Entry>, e: Entry, chat: int)
    requires e.model.chatIds == []
    ensures multiset(Pins(Inserted(models, e)))[chat] == multiset(Pins(models))[chat]
    ensures chat in Pins(Inserted(models, e)) <==> chat in Pins(models)
  {
    PinsOfInserted(models, e);
    assert chat in Pins(models) <==> chat in multiset(Pins(models));
    assert chat in Pins(Inserted(models, e)) <==> chat in multiset(Pins(Inserted(models, e)));
  }

  lemma {:induction false} InsertedValid(c: Config, e: Entry)
    requires ValidConfig(c) && Sound(e) && e.model.chatIds == [] && !HasKey(c.models, e.key)
    ensures var after := c.(models := Inserted(c.models, e));
      && ValidConfig(after)
      && (forall k :: HasKey(c.models, k) ==> HasKey(after.models, k))
      && (forall x :: x in Pins(after.models) <==> x in Pins(c.models))
  {
    var models := Inserted(c.models, e);
    InsertedKeyed(c.models, e);
    InsertedSound(c.models, e);
    forall k | HasKey(c.models, k)
      ensures HasKey(models, k)
    {
      InsertedKeepsKeys(c.models, e, k);
    }
    forall x
      ensures multiset(Pins(models))[x] == multiset(Pins(c.models))[x]
      ensures x in Pins(models) <==> x in Pins(c.models)
    {
      InsertedKeepsPins(c.models, e, x);
    }
  }

  lemma {:induction false} NotMentionedUnchanged(c: Config, chat: int)
    requires !Mentions(c, chat)
    ensures DenyInConfig(c, chat) == c
  {
    WithoutNothing(c.allowedChatIds, chat);
    UnpinnedNothing(c.models, chat);
  }

  lemma {:induction false} UnpinnedNothing(models: seq<Entry>, chat: int)
    requires chat !in Pins(models)
    ensures Unpinned(models, chat) == models
  {
    forall i | 0 <= i < |models|
      ensures Unpinned(models, chat)[i] == models[i]
    {
      PinsContain(models, i, chat);
      WithoutNothing(models[i].model.chatIds, chat);
    }
  }

  lemma {:induction false} WithoutNothing(chats: seq<int>, chat: int)
    requires chat !in chats
    ensures Without(chats, chat) == chats
  {
    if chats != [] {
      WithoutNothing(chats[1..], chat);
    }
  }

  lemma {:induction false} PinsContain(models: seq<Entry>, i: nat, chat: int)
    requires i < |models|
    ensures chat in models[i].model.chatIds ==> chat in Pins(models)
  {
    if i > 0 {
      PinsContain(models[1..], i - 1, chat);
    }
  }

  lemma {:induction false} AllowKeepsInv(s: State, target: int, saved: bool)
    requires Inv(s)
    ensures Inv(AllowStep(s, target, saved))
  {
  }

  lemma {:induction false} DenyKeepsInv(s: State, target: int, saved: bool)
    requires Inv(s)
    ensures Inv(DenyStep(s, target, saved))
  {
    var denied := DenyChat(s.access, target);
    assert Mentions(s.config, target) <==> target in s.access.allowed;
    if Mentions(s.config, target) && !saved {
      assert Allow(denied, target).allowed == s.access.allowed;
    } else {
      var after := DenyInConfig(s.config, target);
      UnpinnedValid(s.config, target, after.allowedChatIds);
      forall x
        ensures x in AllowedBy(after) <==> x in AllowedBy(s.config) - {target}
      {
        WithoutMembers(s.config.allowedChatIds, target, x);
      }
      assert AllowedBy(after) == AllowedBy(s.config) - {target};
      if !Mentions(s.config, target) {
        NotMentionedUnchanged(s.config, target);
      }
    }
  }

  lemma {:induction false} AttemptAccess(a: AccessView, chat: int, code: seq<Byte>, now: Time, minted: seq<Byte>)
    ensures var (after, result) := Attempt(a, chat, code, now, minted);
      && after.owners == a.owners
      && after.allowed == (if result.Paired? then a.allowed + {chat} else a.allowed)
      && (result.Paired? ==> chat !in a.allowed)
  {
  }

  lemma {:induction false} PairKeepsInv(
      s: State, chat: int, code: seq<Byte>, pairer: Option<int>, now: Time, minted: seq<Byte>, saved: bool)
    requires Inv(s)
    ensures Inv(PairStep(s, chat, code, pairer, now, minted, saved))
  {
    AttemptAccess(s.access, chat, code, now, minted);
    var (access, result) := Attempt(s.access, chat, code, now, minted);
    if result.Paired? {
      PairSavedKeepsInv(s, chat, pairer, access, saved);
    }
  }

  lemma {:induction false} PairSavedKeepsInv(s: State, chat: int, pairer: Option<int>, access: AccessView, saved: bool)
    requires Inv(s) && chat !in s.access.allowed
    requires access.allowed == s.access.allowed + {chat} && access.owners == s.access.owners
    ensures var after := PairedConfig(s.config, chat, pairer);
      var becameOwner := pairer.Some? && pairer.value !in s.config.ownerUserIds;
      && after != s.config
      && Inv(s.(access := DenyChat(access, chat)))
      && Inv(Saved(s.(access := if becameOwner then access.(owners := access.owners + {pairer.value})
                                else access), after))
  {
  }

  lemma {:induction false} AddedKeepsInv(
      s: State, chat: int, adder: Option<int>, now: Time, minted: seq<Byte>, saved: bool)
    requires Inv(s)
    ensures Inv(AddedStep(s, chat, adder, now, minted, saved))
  {
  }

  lemma {:induction false} SameMentions(a: Config, b: Config)
    requires forall x :: Mentions(a, x) <==> Mentions(b, x)
    ensures AllowedBy(a) == AllowedBy(b)
  {
    forall x
      ensures x in AllowedBy(a) <==> x in AllowedBy(b)
    {
      assert x in AllowedBy(a) <==> Mentions(a, x);
      assert x in AllowedBy(b) <==> Mentions(b, x);
    }
  }

  /** A saved change that moves pins but neither admits nor excludes anybody. */
  lemma {:induction false} SavedKeepsInv(s: State, after: Config)
    requires Inv(s) && ValidConfig(after) && after.ownerUserIds == s.config.ownerUserIds
    requires forall x :: Mentions(after, x) <==> Mentions(s.config, x)
    ensures Inv(Saved(s, after))
  {
    SameMentions(after, s.config);
  }

  lemma {:induction false} PinKeepsInv(s: State, chat: int, key: string, saved: bool)
    requires Inv(s) && chat in s.access.allowed && HasKey(s.config.models, key)
    ensures Inv(PinStep(s, chat, key, saved))
  {
    var unpinned := s.config.(models := Unpinned(s.config.models, chat), allowedChatIds := s.config.allowedChatIds);
    UnpinnedValid(s.config, chat, s.config.allowedChatIds);
    PinnedValid(unpinned, key, chat);
    var after := s.config.(models := PinnedTo(Unpinned(s.config.models, chat), key, chat));
    assert after == unpinned.(models := PinnedTo(unpinned.models, key, chat));
    assert Mentions(s.config, chat);
    SavedKeepsInv(s, after);
  }

  lemma {:induction false} UnpinKeepsInv(s: State, chat: int, saved: bool)
    requires Inv(s)
    ensures Inv(UnpinStep(s, chat, saved))
  {
    if chat in Pins(s.config.models) && saved {
      var after := UnpinStep(s, chat, saved).config;
      UnpinnedValid(s.config, chat, after.allowedChatIds);
      SavedKeepsInv(s, after);
    }
  }

  ghost predicate Plain(s: string) {
    s != "" && forall i :: 0 <= i < |s| ==> !IsWhitespace(s[i])
  }

  lemma {:induction false} PresetIsSound(
      key: string, wireFormat: Rooms.WireFormat, modelName: string, url: Option<string>, secret: string)
    requires Plain(key) && Plain(modelName) && Plain(secret) && secret[0] != '_' && wireFormat != Rooms.Compat
    requires url.Some? ==> Plain(url.value)
    ensures Sound(Preset(key, wireFormat, modelName, url, secret))
  {
    var preset := Preset(key, wireFormat, modelName, url, secret);
    assert !IsWhitespace(key[0]) && !IsWhitespace(modelName[0]) && !IsWhitespace(secret[0]);
    assert !Secrets.IsReservedName(secret);
    assert url.Some? ==> !IsWhitespace(url.value[0]);
    forall defect
      ensures !HasDefect(preset.key, preset.model, defect)
    {
    }
  }

  lemma {:induction false} AnthropicIsSound()
    ensures Sound(PRESETS[0])
  {
    PresetIsSound("anthropic", Rooms.Anthropic, "claude-opus-5", None, "anthropic_api_key");
  }

  lemma {:induction false} OpenAiIsSound()
    ensures Sound(PRESETS[1])
  {
    PresetIsSound("openai", Rooms.Responses, "gpt-5.6-sol", None, "openai_api_key");
  }

  lemma {:induction false} XaiIsSound()
    ensures Sound(PRESETS[2])
  {
    PresetIsSound("xai", Rooms.Responses, "grok-4.5", Some("https://api.x.ai/v1"), "xai_api_key");
  }

  lemma {:induction false} MetaIsSound()
    ensures Sound(PRESETS[3])
  {
    PresetIsSound("meta", Rooms.Responses, "muse-spark-1.1", Some("https://api.meta.ai/v1"), "meta_model_api_key");
  }

  lemma {:induction false} GeminiIsSound()
    ensures Sound(PRESETS[4])
  {
    PresetIsSound("gemini", Rooms.Gemini, "gemini-3.6-flash", None, "gemini_api_key");
  }

  lemma {:induction false} PresetsAreSound(i: nat)
    requires i < |PRESETS|
    ensures Sound(PRESETS[i]) && PRESETS[i].model.chatIds == []
  {
    AnthropicIsSound();
    OpenAiIsSound();
    XaiIsSound();
    MetaIsSound();
    GeminiIsSound();
  }

  lemma {:induction false} PresetFound(presets: seq<Entry>, requested: string) returns (i: nat)
    requires PresetByKey(presets, requested).Some?
    ensures i < |presets| && PresetByKey(presets, requested) == Some(presets[i])
  {
    i := 0;
    if !EqualsIgnoringCase(presets[0].key, requested) {
      i := PresetFound(presets[1..], requested);
      i := i + 1;
    }
  }

  lemma {:induction false} AddSoundModelKeepsInv(s: State, e: Entry)
    requires Inv(s) && Sound(e) && e.model.chatIds == []
    ensures !HasKey(s.config.models, e.key) ==> Inv(Saved(s, s.config.(models := Inserted(s.config.models, e))))
  {
    if !HasKey(s.config.models, e.key) {
      InsertedValid(s.config, e);
      SavedKeepsInv(s, s.config.(models := Inserted(s.config.models, e)));
    }
  }

  lemma {:induction false} AddModelKeepsInv(s: State, requested: string, saved: bool)
    requires Inv(s)
    ensures Inv(AddModelStep(s, requested, saved))
  {
    if PresetByKey(PRESETS, requested).Some? {
      var i := PresetFound(PRESETS, requested);
      PresetsAreSound(i);
      AddSoundModelKeepsInv(s, PRESETS[i]);
    }
  }

  lemma {:induction false} CommandKeepsInv(s: State, chat: int, owner: bool, command: Command, saved: bool)
    requires Inv(s) && chat in s.access.allowed
    ensures Inv(CommandStep(s, chat, owner, command, saved))
  {
    match command
    case AllowChat(target) => AllowKeepsInv(s, target, saved);
    case DenyRoom(target) => DenyKeepsInv(s, target, saved);
    case PinModel(requested) =>
      var key := requested.GetOr(SelectedModelKey(s.config, s.selected, chat));
      if HasKey(s.config.models, key) {
        PinKeepsInv(s, chat, key, saved);
      }
    case UnpinModel => UnpinKeepsInv(s, chat, saved);
    case AddModel(requested) => AddModelKeepsInv(s, requested, saved);
    case SetModel(key) =>
  }

  lemma {:induction false} StepKeepsInv(s: State, e: Event)
    requires Inv(s)
    ensures Inv(Step(s, e))
  {
    match e
    case Message(chat, sender, sentAt, now, command, saved) =>
      if chat in s.access.allowed {
        CommandKeepsInv(s, chat, IsOwner(s, sender, sentAt, now), command, saved);
      }
    case PairMessage(chat, code, pairer, now, minted, saved) => PairKeepsInv(s, chat, code, pairer, now, minted, saved);
    case Added(chat, adder, now, minted, saved) => AddedKeepsInv(s, chat, adder, now, minted, saved);
  }

  lemma {:induction false} RunKeepsInv(s: State, events: seq<Event>)
    requires Inv(s)
    ensures Inv(Run(s, events))
    decreases events
  {
    if events != [] {
      StepKeepsInv(s, events[0]);
      RunKeepsInv(Step(s, events[0]), events[1..]);
    }
  }

  // ---------- Main results ----------

  /** The access decisions a fresh start takes from a configuration. */
  ghost function FreshAccess(c: Config): AccessView {
    AccessView(AllowedBy(c), OwnersBy(c), map[], map[], {})
  }

  ghost function Started(c: Config, selected: map<int, string>): State {
    State(c, c, FreshAccess(c), selected)
  }

  /** After any run of commands, with any saves failing, restarting from the file on disk changes
      nobody's access: the live sets are those rebuilt from memory and from the disk. */
  lemma {:induction false} RestartChangesNobody(c: Config, selected: map<int, string>, events: seq<Event>)
    requires ValidConfig(c)
    ensures var s := Run(Started(c, selected), events);
      && s.access.allowed == FreshAccess(s.config).allowed == FreshAccess(s.disk).allowed
      && s.access.owners == FreshAccess(s.config).owners == FreshAccess(s.disk).owners
  {
    RunKeepsInv(Started(c, selected), events);
  }

  /** No run of commands makes the configuration invalid, in memory or on disk. */
  lemma {:induction false} ConfigStaysValid(c: Config, selected: map<int, string>, events: seq<Event>)
    requires ValidConfig(c)
    ensures var s := Run(Started(c, selected), events);
      WellFormed(s.config) && WellFormed(s.disk)
  {
    RunKeepsInv(Started(c, selected), events);
  }

  // ---------- Which model a room resolves to ----------

  lemma {:induction false} PinnedKeyExists(models: seq<Entry>, chat: int)
    ensures PinnedKey(models, chat).Some? ==> HasKey(models, PinnedKey(models, chat).value)
  {
    if models != [] && chat !in models[0].model.chatIds {
      PinnedKeyExists(models[1..], chat);
      assert forall i :: 0 <= i < |models| - 1 ==> models[1..][i] == models[i + 1];
    }
  }

  /** The room's selection names no configured model. */
  predicate Stale(s: State, chat: int) {
    chat in s.selected && !HasKey(s.config.models, s.selected[chat])
  }

  /** No model disappears, and a stale selection is one that was there and stale before. */
  ghost predicate Follows(s: State, t: State) {
    && (forall key :: HasKey(s.config.models, key) ==> HasKey(t.config.models, key))
    && (forall chat :: Stale(t, chat) ==> Stale(s, chat) && t.selected[chat] == s.selected[chat])
  }

  lemma {:induction false} MoreModelsFollow(s: State, t: State)
    requires forall key :: HasKey(s.config.models, key) ==> HasKey(t.config.models, key)
    requires forall chat :: chat in t.selected ==> chat in s.selected && t.selected[chat] == s.selected[chat]
    ensures Follows(s, t)
  {
    forall chat | Stale(t, chat)
      ensures Stale(s, chat) && t.selected[chat] == s.selected[chat]
    {
      assert !HasKey(t.config.models, t.selected[chat]);
    }
  }

  lemma {:induction false} DenyFollows(s: State, target: int, saved: bool)
    requires Inv(s)
    ensures Follows(s, DenyStep(s, target, saved))
  {
    UnpinnedValid(s.config, target, DenyInConfig(s.config, target).allowedChatIds);
    MoreModelsFollow(s, DenyStep(s, target, saved));
  }

  lemma {:induction false} PinFollows(s: State, chat: int, key: string, saved: bool)
    requires Inv(s) && HasKey(s.config.models, key)
    ensures Follows(s, PinStep(s, chat, key, saved))
  {
    var unpinned := s.config.(models := Unpinned(s.config.models, chat), allowedChatIds := s.config.allowedChatIds);
    UnpinnedValid(s.config, chat, s.config.allowedChatIds);
    PinnedValid(unpinned, key, chat);
    MoreModelsFollow(s, PinStep(s, chat, key, saved));
  }

  lemma {:induction false} UnpinFollows(s: State, chat: int, saved: bool)
    requires Inv(s)
    ensures Follows(s, UnpinStep(s, chat, saved))
  {
    UnpinnedValid(s.config, chat, UnpinStep(s, chat, saved).config.allowedChatIds);
    MoreModelsFollow(s, UnpinStep(s, chat, saved));
  }

  lemma {:induction false} AddModelFollows(s: State, requested: string, saved: bool)
    requires Inv(s)
    ensures Follows(s, AddModelStep(s, requested, saved))
  {
    var preset := PresetByKey(PRESETS, requested);
    if preset.Some? {
      forall key | HasKey(s.config.models, key)
        ensures HasKey(Inserted(s.config.models, preset.value), key)
      {
        InsertedKeepsKeys(s.config.models, preset.value, key);
      }
    }
    MoreModelsFollow(s, AddModelStep(s, requested, saved));
  }

  lemma {:induction false} CommandFollows(s: State, chat: int, owner: bool, command: Command, saved: bool)
    requires Inv(s)
    ensures Follows(s, CommandStep(s, chat, owner, command, saved))
  {
    match command
    case AllowChat(target) =>
    case DenyRoom(target) => DenyFollows(s, target, saved);
    case PinModel(requested) =>
      var key := requested.GetOr(SelectedModelKey(s.config, s.selected, chat));
      if HasKey(s.config.models, key) {
        PinFollows(s, chat, key, saved);
      }
    case UnpinModel => UnpinFollows(s, chat, saved);
    case AddModel(requested) => AddModelFollows(s, requested, saved);
    case SetModel(key) =>
  }

  lemma {:induction false} StepFollows(s: State, e: Event)
    requires Inv(s)
    ensures Follows(s, Step(s, e))
  {
    match e
    case Message(chat, sender, sentAt, now, command, saved) =>
      CommandFollows(s, chat, IsOwner(s, sender, sentAt, now), command, saved);
    case PairMessage(chat, code, pairer, now, minted, saved) =>
    case Added(chat, adder, now, minted, saved) =>
  }

  lemma {:induction false} RunFollows(s: State, events: seq<Event>)
    requires Inv(s)
    ensures Follows(s, Run(s, events))
    decreases events
  {
    if events != [] {
      StepFollows(s, events[0]);
      StepKeepsInv(s, events[0]);
      RunFollows(Step(s, events[0]), events[1..]);
    }
  }

  /** After any run a room resolves to no model exactly when nobody pinned it and it still has the
      selection it started with, one that was configured neither then nor since. */
  lemma {:induction false} UnresolvedExactly(c: Config, selected: map<int, string>, events: seq<Event>, chat: int)
    requires ValidConfig(c)
    ensures var s := Run(Started(c, selected), events);
      !HasKey(s.config.models, SelectedModelKey(s.config, s.selected, chat)) <==>
        && PinnedKey(s.config.models, chat).None?
        && Stale(Started(c, selected), chat) && Stale(s, chat) && s.selected[chat] == selected[chat]
  {
    RunKeepsInv(Started(c, selected), events);
    RunFollows(Started(c, selected), events);
    PinnedKeyExists(Run(Started(c, selected), events).config.models, chat);
  }

  /** A room that starts with no selection or a configured one always resolves to a model that
      exists, whatever other rooms have selected. */
  lemma {:induction false} SelectedModelExists(c: Config, selected: map<int, string>, events: seq<Event>, chat: int)
    requires ValidConfig(c) && (chat in selected ==> HasKey(c.models, selected[chat]))
    ensures var s := Run(Started(c, selected), events);
      HasKey(s.config.models, SelectedModelKey(s.config, s.selected, chat))
  {
    UnresolvedExactly(c, selected, events, chat);
  }

  // ---------- Who may command, and what a command achieves ----------

  /** A registered owner with a message at most 60 seconds old. */
  predicate FromOwner(s: State, e: Event) {
    && e.Message?
    && e.sender.Some? && e.sender.value in s.access.owners && e.now <= e.sentAt + 60
  }

  /** A message from a chat that is not allowed changes nothing. Without an owner's fresh message
      neither the configuration, nor the disk, nor anybody's access changes; all that may change is
      the chat's own selection. */
  lemma {:induction false} OnlyOwnersCommand(s: State, e: Event)
    requires e.Message?
    ensures e.chat !in s.access.allowed ==> Step(s, e) == s
    ensures !FromOwner(s, e) ==>
      var t := Step(s, e);
      && t.config == s.config && t.disk == s.disk && t.access == s.access
      && t.selected - {e.chat} == s.selected - {e.chat}
  {
  }

  /** /allow: the chat, and no other, becomes allowed in live access, memory and disk. */
  lemma {:induction false} AllowAdmits(s: State, e: Event)
    requires Inv(s) && FromOwner(s, e) && e.chat in s.access.allowed && e.command.AllowChat? && e.saved
    ensures var t, target := Step(s, e), e.command.target;
      && t.access.allowed == s.access.allowed + {target} && t.access.owners == s.access.owners
      && target in t.config.allowedChatIds && t.disk == t.config && t.config.models == s.config.models
  {
  }

  /** /deny: the chat, and no other, is out of live access, memory and disk, and its selection is
      forgotten. */
  lemma {:induction false} DenyExcludes(s: State, e: Event)
    requires Inv(s) && FromOwner(s, e) && e.chat in s.access.allowed && e.command.DenyRoom? && e.saved
    ensures var t, target := Step(s, e), e.command.target;
      && t.access.allowed == s.access.allowed - {target} && t.access.owners == s.access.owners
      && target !in t.config.allowedChatIds && target !in Pins(t.config.models) && t.disk == t.config
      && t.selected == s.selected - {target}
  {
    var target := e.command.target;
    DenyKeepsInv(s, target, true);
    WithoutMembers(s.config.allowedChatIds, target, target);
    UnpinnedKeepsOthers(s.config.models, target, target);
    if !Mentions(s.config, target) {
      NotMentionedUnchanged(s.config, target);
    }
  }

  lemma {:induction false} FirstPin(models: seq<Entry>, chat: int)
    ensures match PinnedKey(models, chat)
            case None => forall i :: 0 <= i < |models| ==> chat !in models[i].model.chatIds
            case Some(key) =>
              exists i :: 0 <= i < |models| && chat in models[i].model.chatIds && models[i].key == key
                && forall j :: 0 <= j < i ==> chat !in models[j].model.chatIds
  {
    if models != [] && chat !in models[0].model.chatIds {
      var rest := models[1..];
      FirstPin(rest, chat);
      assert forall i :: 0 < i < |models| ==> models[i] == rest[i - 1];
      if PinnedKey(rest, chat).Some? {
        var i :| 0 <= i < |rest| && chat in rest[i].model.chatIds && rest[i].key == PinnedKey(rest, chat).value
                 && forall j :: 0 <= j < i ==> chat !in rest[j].model.chatIds;
        assert chat in models[i + 1].model.chatIds;
      }
    }
  }

  lemma {:induction false} PinnedToOnly(models: seq<Entry>, key: string, chat: int)
    requires HasKey(models, key) && forall i :: 0 <= i < |models| ==> chat !in models[i].model.chatIds
    ensures PinnedKey(PinnedTo(models, key, chat), chat) == Some(key)
  {
    var after := PinnedTo(models, key, chat);
    FirstPin(after, chat);
    var i :| 0 <= i < |models| && models[i].key == key;
    assert chat in after[i].model.chatIds;
    assert forall j :: 0 <= j < |after| && chat in after[j].model.chatIds ==> after[j].key == key;
  }

  lemma {:induction false} UnpinnedHasNone(models: seq<Entry>, chat: int)
    ensures forall i :: 0 <= i < |Unpinned(models, chat)| ==> chat !in Unpinned(models, chat)[i].model.chatIds
    ensures forall key :: HasKey(models, key) ==> HasKey(Unpinned(models, chat), key)
    ensures PinnedKey(Unpinned(models, chat), chat) == None
  {
    var after := Unpinned(models, chat);
    forall i | 0 <= i < |after|
      ensures chat !in after[i].model.chatIds
    {
      WithoutMembers(models[i].model.chatIds, chat, chat);
    }
    FirstPin(after, chat);
    forall key | HasKey(models, key)
      ensures HasKey(after, key)
    {
      var i :| 0 <= i < |models| && models[i].key == key;
      assert after[i].key == key;
    }
  }

  /** /model pin with a configured key, or without one if the room resolves to a configured model: the
      room is pinned to that model and resolves to it, and nobody's access changes. */
  lemma {:induction false} PinChooses(s: State, e: Event)
    requires Inv(s) && FromOwner(s, e) && e.chat in s.access.allowed && e.command.PinModel? && e.saved
    requires HasKey(s.config.models, e.command.pinKey.GetOr(SelectedModelKey(s.config, s.selected, e.chat)))
    ensures var t, key := Step(s, e), e.command.pinKey.GetOr(SelectedModelKey(s.config, s.selected, e.chat));
      && PinnedKey(t.config.models, e.chat) == Some(key) == Some(SelectedModelKey(t.config, t.selected, e.chat))
      && t.disk == t.config && t.access == s.access && t.selected == s.selected
  {
    var key := e.command.pinKey.GetOr(SelectedModelKey(s.config, s.selected, e.chat));
    UnpinnedHasNone(s.config.models, e.chat);
    PinnedToOnly(Unpinned(s.config.models, e.chat), key, e.chat);
  }

  /** /model unpin: the room is pinned no more, and stays allowed. */
  lemma {:induction false} UnpinReleases(s: State, e: Event)
    requires Inv(s) && FromOwner(s, e) && e.chat in s.access.allowed && e.command.UnpinModel? && e.saved
    ensures var t := Step(s, e);
      && PinnedKey(t.config.models, e.chat) == None && t.disk == t.config && t.access == s.access
      && e.chat in t.config.allowedChatIds
  {
    UnpinnedHasNone(s.config.models, e.chat);
    FirstPin(s.config.models, e.chat);
    if e.chat !in Pins(s.config.models) {
      UnpinnedNothing(s.config.models, e.chat);
    }
  }

  /** A configured model selected in an unpinned room is the one it resolves to; in a pinned room
      nothing changes. */
  lemma {:induction false} SelectChooses(s: State, e: Event)
    requires e.Message? && e.chat in s.access.allowed && e.command.SetModel? && e.saved
    requires HasKey(s.config.models, e.command.modelKey)
    ensures var t := Step(s, e);
      if e.chat in Pins(s.config.models) then t == s
      else SelectedModelKey(t.config, t.selected, e.chat) == e.command.modelKey && t.config == s.config
  {
    FirstPin(s.config.models, e.chat);
    PinsAreMembers(s.config.models, e.chat);
  }

  lemma {:induction false} PinsAreMembers(models: seq<Entry>, chat: int)
    ensures chat in Pins(models) <==> exists i :: 0 <= i < |models| && chat in models[i].model.chatIds
  {
    if models != [] {
      PinsAreMembers(models[1..], chat);
      if i :| 0 <= i < |models| && chat in models[i].model.chatIds {
        assert i > 0 ==> chat in models[1..][i - 1].model.chatIds;
      }
      if chat in Pins(models[1..]) {
        var i :| 0 <= i < |models[1..]| && chat in models[1..][i].model.chatIds;
        assert chat in models[i + 1].model.chatIds;
      }
    }
  }

  /** A pin outranks the room's own selection, and that the default. */
  lemma {:induction false} PinThenSelectionThenDefault(c: Config, selected: map<int, string>, chat: int)
    ensures var key := SelectedModelKey(c, selected, chat);
      if chat in Pins(c.models) then
        exists i :: 0 <= i < |c.models| && chat in c.models[i].model.chatIds && c.models[i].key == key
          && forall j :: 0 <= j < i ==> chat !in c.models[j].model.chatIds
      else key == if chat in selected then selected[chat] else c.defaultModel
  {
    FirstPin(c.models, chat);
    PinsAreMembers(c.models, chat);
  }

  /** /model add: the preset asked for is added unless some key equals the request ignoring case; the
      other models stay. */
  lemma {:induction false} AddModelAdds(s: State, e: Event)
    requires Inv(s) && FromOwner(s, e) && e.chat in s.access.allowed && e.command.AddModel? && e.saved
    requires forall i :: 0 <= i < |s.config.models| ==> !EqualsIgnoringCase(s.config.models[i].key, e.command.presetKey)
    requires exists p :: p in PRESETS && EqualsIgnoringCase(p.key, e.command.presetKey)
    ensures var t := Step(s, e);
      && t.disk == t.config && t.access == s.access
      && (exists p :: p in PRESETS && EqualsIgnoringCase(p.key, e.command.presetKey) && p in t.config.models)
      && (forall i :: 0 <= i < |s.config.models| ==> s.config.models[i] in t.config.models)
  {
    var requested, models := e.command.presetKey, s.config.models;
    NoKeyIgnoringCase(models, requested);
    var i := RequestedPreset(PRESETS, requested);
    PresetIsAdded(s, requested, PRESETS[i]);
  }

  lemma {:induction false} PresetIsAdded(s: State, requested: string, preset: Entry)
    requires s.disk == s.config && KeyIgnoringCase(s.config.models, requested) == None
    requires PresetByKey(PRESETS, requested) == Some(preset) && EqualsIgnoringCase(preset.key, requested)
    requires forall i :: 0 <= i < |s.config.models| ==> !EqualsIgnoringCase(s.config.models[i].key, requested)
    ensures AddModelStep(s, requested, true) == Saved(s, s.config.(models := Inserted(s.config.models, preset)))
    ensures preset in Inserted(s.config.models, preset)
    ensures forall i :: 0 <= i < |s.config.models| ==> s.config.models[i] in Inserted(s.config.models, preset)
  {
    InsertedMembers(s.config.models, preset);
    assert !HasKey(s.config.models, preset.key);
  }

  lemma {:induction false} NoKeyIgnoringCase(models: seq<Entry>, requested: string)
    requires forall i :: 0 <= i < |models| ==> !EqualsIgnoringCase(models[i].key, requested)
    ensures KeyIgnoringCase(models, requested) == None
  {
    if models != [] {
      NoKeyIgnoringCase(models[1..], requested);
    }
  }

  lemma {:induction false} RequestedPreset(presets: seq<Entry>, requested: string) returns (i: nat)
    requires exists p :: p in presets && EqualsIgnoringCase(p.key, requested)
    ensures i < |presets| && PresetByKey(presets, requested) == Some(presets[i])
    ensures EqualsIgnoringCase(presets[i].key, requested)
  {
    i := 0;
    if !EqualsIgnoringCase(presets[0].key, requested) {
      var p :| p in presets && EqualsIgnoringCase(p.key, requested);
      assert p in presets[1..];
      i := RequestedPreset(presets[1..], requested);
      i := i + 1;
    }
  }

  lemma {:induction false} InsertedMembers(models: seq<Entry>, e: Entry)
    ensures e in Inserted(models, e)
    ensures forall i :: 0 <= i < |models| ==> models[i] in Inserted(models, e)
  {
    if models != [] && !Before(e.key, models[0].key) {
      InsertedMembers(models[1..], e);
      assert forall i :: 0 < i < |models| ==> models[i] == models[1..][i - 1];
    }
  }

  /** Pairing with the current code admits the chat and makes the pairing user an owner, in all
      copies, or nobody if the save fails; nothing else pairs. */
  lemma {:induction false} PairAdmits(s: State, e: Event)
    requires Inv(s) && e.PairMessage?
    ensures var t := Step(s, e);
      var pairs := Attempt(s.access, e.chat, e.code, e.now, e.minted).1.Paired?;
      if pairs && e.saved then
        && t.access.allowed == s.access.allowed + {e.chat} && e.chat in t.config.allowedChatIds && t.disk == t.config
        && t.access.owners == s.access.owners + (if e.pairer.Some? then {e.pairer.value} else {})
      else
        && t.access.allowed == s.access.allowed && t.access.owners == s.access.owners
        && t.config == s.config && t.disk == s.disk
  {
    AttemptAccess(s.access, e.chat, e.code, e.now, e.minted);
    PairKeepsInv(s, e.chat, e.code, e.pairer, e.now, e.minted, e.saved);
  }

  /** A chat is admitted on being added by an owner; added by anybody else it gets a pairing code. */
  lemma {:induction false} AddedByOwnerAdmits(s: State, e: Event)
    requires Inv(s) && e.Added?
    ensures var t := Step(s, e);
      if e.adder.Some? && e.adder.value in s.access.owners then
        e.saved ==> t.access.allowed == s.access.allowed + {e.chat} && e.chat in t.config.allowedChatIds
      else
        && t.access.allowed == s.access.allowed && t.config == s.config
        && (e.chat !in s.access.allowed ==>
              && e.chat in t.access.pending
              && t.access.pending[e.chat].code == CurrentCode(s.access, e.chat, e.now, e.minted))
  {
  }

  /** When the save fails nobody's access changes, and neither does the configuration. */
  lemma {:induction false} FailedSaveChangesNobody(s: State, e: Event)
    requires Inv(s) && !e.saved
    ensures var t := Step(s, e);
      && t.access.allowed == s.access.allowed && t.access.owners == s.access.owners
      && t.config == s.config && t.disk == s.disk
  {
    StepKeepsInv(s, e);
    if e.PairMessage? {
      PairAdmits(s, e);
    }
  }
}
