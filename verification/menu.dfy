/**
 * The tray's context menu as a value (modules/tray.py:29-189, 238-359).
 * Handlers become `Action` values naming what a click would do; `checked`
 * and `enabled` callbacks become the values they have for the state the
 * menu was built from. Device identifiers, history texts and previews,
 * providers and settings come in as inputs.
 */
module Menu {
  import opened Wrappers
  import opened DeviceOrder

  datatype Action<I> =
    | NoAction
    | CopyText(text: string)
    | CopyLatest
    | RetryTranscription
    | SelectDevice(device: Device<I>)
    | ToggleFavorite(device: Device<I>)
    | RefreshDevices
    | SelectProvider(provider: string)
    | SelectModel(model: string)
    | ToggleCleanTranscription
    | ToggleSilentStart
    | SetIndicatorSize(size: string)
    | SetIndicatorPosition(position: string)
    | RestartApp
    | ExitApp

  /** A pystray menu entry. `checked` is `None` for an item that is not a
      check item. */
  datatype MenuItem<I> =
    | Item(title: string, action: Action<I>, checked: Option<bool>, enabled: bool, isDefault: bool)
    | Submenu(title: string, children: seq<MenuItem<I>>, enabled: bool)
    | Separator

  function Plain<I>(title: string, action: Action<I>): MenuItem<I>
  {
    Item(title, action, None, true, false)
  }

  function Check<I>(title: string, action: Action<I>, checked: bool): MenuItem<I>
  {
    Item(title, action, Some(checked), true, false)
  }

  /** A disabled entry standing in for an empty list. */
  function Placeholder<I>(title: string): MenuItem<I>
  {
    Item(title, NoAction, None, false, false)
  }

  // ---------------------------------------------------------------------
  // Device labels (modules/tray.py:82-84, 88, 96)

  const DefaultPrefix: string := "\U{1F399}\U{FE0F} "
  const FavoritePrefix: string := "\U{1F4AB} "
  const Padding: string := "    "

  /** `combined_prefix` of the "Select Device" entries. */
  function SelectPrefix(isDefault: bool, isFavorite: bool): string
  {
    var starPrefix := if isFavorite then FavoritePrefix else Padding;
    var defaultPrefix := if isDefault then DefaultPrefix else Padding;
    if isDefault then defaultPrefix else starPrefix
  }

  /** `default_prefix`, the only prefix of the "Manage Favorites" entries. */
  function ManagePrefix(isDefault: bool): string
  {
    if isDefault then DefaultPrefix else Padding
  }

  /** What a reader of a device label can tell from its prefix. */
  datatype Badge = DefaultBadge | FavoriteBadge | NoBadge
  datatype Labelled = Labelled(badge: Badge, name: string)

  function ReadLabel(title: string): Option<Labelled>
  {
    if DefaultPrefix <= title then Some(Labelled(DefaultBadge, title[|DefaultPrefix|..]))
    else if FavoritePrefix <= title then Some(Labelled(FavoriteBadge, title[|FavoritePrefix|..]))
    else if Padding <= title then Some(Labelled(NoBadge, title[|Padding|..]))
    else None
  }

  lemma ReadPrefixed(prefix: string, name: string)
    requires prefix == DefaultPrefix || prefix == FavoritePrefix || prefix == Padding
    ensures ReadLabel(prefix + name) == Some(Labelled(
      if prefix == DefaultPrefix then DefaultBadge
      else if prefix == FavoritePrefix then FavoriteBadge
      else NoBadge, name))
  {
    var title := prefix + name;
    assert title[..|prefix|] == prefix && title[|prefix|..] == name;
    assert title[0] == prefix[0];
  }

  /** A "Select Device" label shows exactly one status: the default device
      shows the microphone even when it is a favourite, a non-default
      favourite shows the star, anything else is padded; the name follows
      unchanged. */
  lemma SelectLabelBadge(isDefault: bool, isFavorite: bool, name: string)
    ensures isDefault ==>
      ReadLabel(SelectPrefix(isDefault, isFavorite) + name) == Some(Labelled(DefaultBadge, name))
    ensures !isDefault && isFavorite ==>
      ReadLabel(SelectPrefix(isDefault, isFavorite) + name) == Some(Labelled(FavoriteBadge, name))
    ensures !isDefault && !isFavorite ==>
      ReadLabel(SelectPrefix(isDefault, isFavorite) + name) == Some(Labelled(NoBadge, name))
  {
    ReadPrefixed(SelectPrefix(isDefault, isFavorite), name);
  }

  /** A "Manage Favorites" label never shows the star. */
  lemma ManageLabelBadge(isDefault: bool, name: string)
    ensures ReadLabel(ManagePrefix(isDefault) + name)
      == Some(Labelled(if isDefault then DefaultBadge else NoBadge, name))
  {
    ReadPrefixed(ManagePrefix(isDefault), name);
  }

  // ---------------------------------------------------------------------
  // Microphone menu (modules/tray.py:42-114)

  function SelectItem<I(==)>(d: Device<I>, current: Option<I>, favorites: seq<I>, defaultId: Option<int>): MenuItem<I>
  {
    Check(SelectPrefix(Some(d.id) == defaultId, d.identifier in favorites) + d.name,
          SelectDevice(d), Some(d.identifier) == current)
  }

  function ManageItem<I(==)>(d: Device<I>, favorites: seq<I>, defaultId: Option<int>): MenuItem<I>
  {
    Check(ManagePrefix(Some(d.id) == defaultId) + d.name, ToggleFavorite(d), d.identifier in favorites)
  }

  function MicrophoneMenuSpec<I(==)>(devices: seq<Device<I>>, current: Option<I>, favorites: seq<I>,
                                     defaultId: Option<int>): seq<MenuItem<I>>
  {
    var sorted := SortByName(devices);
    [ Submenu("Select Device",
        seq(|sorted|, i requires 0 <= i < |sorted| => SelectItem(sorted[i], current, favorites, defaultId)), true),
      Submenu("Manage Favorites",
        seq(|sorted|, i requires 0 <= i < |sorted| => ManageItem(sorted[i], favorites, defaultId)), true),
      Plain("Refresh Devices", RefreshDevices) ]
  }

  /** `create_microphone_menu`: one pass over the sorted devices appends an
      entry to each submenu. */
  method MicrophoneMenu<I(==)>(devices: seq<Device<I>>, current: Option<I>, favorites: seq<I>,
                               defaultId: Option<int>) returns (items: seq<MenuItem<I>>)
    ensures items == MicrophoneMenuSpec(devices, current, favorites, defaultId)
  {
    var sorted := SortByName(devices);
    var selectItems: seq<MenuItem<I>> := [];
    var favoriteItems: seq<MenuItem<I>> := [];
    for k := 0 to |sorted|
      invariant |selectItems| == k && |favoriteItems| == k
      invariant forall j :: 0 <= j < k ==> selectItems[j] == SelectItem(sorted[j], current, favorites, defaultId)
      invariant forall j :: 0 <= j < k ==> favoriteItems[j] == ManageItem(sorted[j], favorites, defaultId)
    {
      var d := sorted[k];
      var isFavorite := d.identifier in favorites;
      var isSelected := Some(d.identifier) == current;
      var isDefault := Some(d.id) == defaultId;
      var starPrefix := if isFavorite then FavoritePrefix else Padding;
      var defaultPrefix := if isDefault then DefaultPrefix else Padding;
      var combinedPrefix := if isDefault then defaultPrefix else starPrefix;
      selectItems := selectItems + [Check(combinedPrefix + d.name, SelectDevice(d), isSelected)];
      favoriteItems := favoriteItems + [Check(defaultPrefix + d.name, ToggleFavorite(d), isFavorite)];
    }
    assert selectItems == seq(|sorted|, i requires 0 <= i < |sorted| => SelectItem(sorted[i], current, favorites, defaultId));
    assert favoriteItems == seq(|sorted|, i requires 0 <= i < |sorted| => ManageItem(sorted[i], favorites, defaultId));
    items := [ Submenu("Select Device", selectItems, true),
               Submenu("Manage Favorites", favoriteItems, true),
               Plain("Refresh Devices", RefreshDevices) ];
  }

  /** Both submenus list every device once, in case-insensitive name order,
      and each entry's label carries the device's status and name. */
  lemma MicrophoneMenuListsDevices<I>(devices: seq<Device<I>>, current: Option<I>, favorites: seq<I>,
                                          defaultId: Option<int>)
    ensures var menu := MicrophoneMenuSpec(devices, current, favorites, defaultId);
      var sorted := SortByName(devices);
      && multiset(sorted) == multiset(devices) && SortedByKey(sorted)
      && |menu[0].children| == |menu[1].children| == |devices|
      && (forall i :: 0 <= i < |sorted| ==>
            && menu[0].children[i].action == SelectDevice(sorted[i])
            && menu[0].children[i].checked == Some(current == Some(sorted[i].identifier))
            && ReadLabel(menu[0].children[i].title) == Some(Labelled(
                 if Some(sorted[i].id) == defaultId then DefaultBadge
                 else if sorted[i].identifier in favorites then FavoriteBadge
                 else NoBadge, sorted[i].name)))
      && (forall i :: 0 <= i < |sorted| ==>
            && menu[1].children[i].action == ToggleFavorite(sorted[i])
            && menu[1].children[i].checked == Some(sorted[i].identifier in favorites)
            && ReadLabel(menu[1].children[i].title) == Some(Labelled(
                 if Some(sorted[i].id) == defaultId then DefaultBadge else NoBadge, sorted[i].name)))
  {
    var sorted := SortByName(devices);
    SortByNameSpec(devices);
    assert |sorted| == |devices| by {
      assert |multiset(sorted)| == |multiset(devices)|;
    }
    forall i | 0 <= i < |sorted|
      ensures ReadLabel(SelectItem(sorted[i], current, favorites, defaultId).title) == Some(Labelled(
                 if Some(sorted[i].id) == defaultId then DefaultBadge
                 else if sorted[i].identifier in favorites then FavoriteBadge
                 else NoBadge, sorted[i].name))
      ensures ReadLabel(ManageItem(sorted[i], favorites, defaultId).title) == Some(Labelled(
                 if Some(sorted[i].id) == defaultId then DefaultBadge else NoBadge, sorted[i].name))
    {
      var d := sorted[i];
      SelectLabelBadge(Some(d.id) == defaultId, d.identifier in favorites, d.name);
      ManageLabelBadge(Some(d.id) == defaultId, d.name);
    }
  }

  // ---------------------------------------------------------------------
  // Speech-to-text menu (modules/tray.py:116-189)

  /** An entry of `transcribe.get_available_providers()`. */
  datatype Provider = Provider(name: string, displayName: string, models: seq<string>)

  const OpenAi: string := "openai"

  /** `next((p for p in providers if p['name'] == name), None)`. */
  function FindProvider(providers: seq<Provider>, name: string): (r: Option<Provider>)
    ensures r.None? <==> forall i :: 0 <= i < |providers| ==> providers[i].name != name
    ensures r.Some? ==> exists i :: 0 <= i < |providers| && providers[i] == r.value && r.value.name == name
                                    && forall j :: 0 <= j < i ==> providers[j].name != name
  {
    if providers == [] then None
    else if providers[0].name == name then Some(providers[0])
    else
      var r := FindProvider(providers[1..], name);
      assert r.Some? ==> exists i :: 1 <= i < |providers| && providers[i] == r.value
                                     && forall j :: 1 <= j < i ==> providers[j].name != name by {
        if r.Some? {
          var i :| 0 <= i < |providers[1..]| && providers[1..][i] == r.value
                   && forall j :: 0 <= j < i ==> providers[1..][j].name != name;
          assert providers[i + 1] == r.value;
          forall j | 1 <= j < i + 1 ensures providers[j].name != name {
            assert providers[j] == providers[1..][j - 1];
          }
        }
      }
      r
  }

  /** The friendly names of modules/tray.py:154-158. */
  const ModelNames: map<string, string> := map[
    "gpt-4o-transcribe" := "GPT-4o (Best)",
    "gpt-4o-mini-transcribe" := "GPT-4o Mini",
    "whisper-1" := "Whisper (Legacy)"]

  /** `{...}.get(model, model)`. */
  function ModelDisplayName(model: string): string
  {
    if model in ModelNames then ModelNames[model] else model
  }

  /** The three known models get their friendly names; every other
      identifier is shown as it is. */
  lemma ModelDisplayNames(model: string)
    ensures ModelDisplayName("gpt-4o-transcribe") == "GPT-4o (Best)"
    ensures ModelDisplayName("gpt-4o-mini-transcribe") == "GPT-4o Mini"
    ensures ModelDisplayName("whisper-1") == "Whisper (Legacy)"
    ensures model != "gpt-4o-transcribe" && model != "gpt-4o-mini-transcribe" && model != "whisper-1"
      ==> ModelDisplayName(model) == model
  {
  }

  function ProviderItem<I>(p: Provider, current: string): MenuItem<I>
  {
    Check(p.displayName, SelectProvider(p.name), p.name == current)
  }

  function ModelItem<I>(model: string, currentModel: Option<string>): MenuItem<I>
  {
    Check(ModelDisplayName(model), SelectModel(model), Some(model) == currentModel)
  }

  /** The models offered: those of the first `openai` provider, and only
      while it is the current provider. */
  function OfferedModels(current: string, providers: seq<Provider>): seq<string>
  {
    if current != OpenAi then []
    else match FindProvider(providers, OpenAi)
      case None => []
      case Some(p) => p.models
  }

  function SttMenuSpec<I>(current: string, providers: seq<Provider>, currentModel: Option<string>): seq<MenuItem<I>>
  {
    var providerItems := seq(|providers|, i requires 0 <= i < |providers| => ProviderItem(providers[i], current));
    var models := OfferedModels(current, providers);
    var modelItems := seq(|models|, i requires 0 <= i < |models| => ModelItem(models[i], currentModel));
    [Submenu("Provider", if providerItems != [] then providerItems else [Placeholder("No providers available")], true)]
    + (if modelItems != [] then [Submenu("OpenAI Model", modelItems, true)] else [])
  }

  /** `create_stt_provider_menu`. */
  method SttProviderMenu<I>(current: string, providers: seq<Provider>, currentModel: Option<string>)
    returns (items: seq<MenuItem<I>>)
    ensures items == SttMenuSpec(current, providers, currentModel)
  {
    var providerItems: seq<MenuItem<I>> := [];
    for k := 0 to |providers|
      invariant |providerItems| == k
      invariant forall j :: 0 <= j < k ==> providerItems[j] == ProviderItem(providers[j], current)
    {
      var p := providers[k];
      providerItems := providerItems + [Check(p.displayName, SelectProvider(p.name), p.name == current)];
    }

    var modelItems: seq<MenuItem<I>> := [];
    if current == OpenAi {
      var openAiProvider := FindProvider(providers, OpenAi);
      if openAiProvider.Some? {
        var models := openAiProvider.value.models;
        for k := 0 to |models|
          invariant |modelItems| == k
          invariant forall j :: 0 <= j < k ==> modelItems[j] == ModelItem(models[j], currentModel)
        {
          var model := models[k];
          var displayName := if model in ModelNames then ModelNames[model] else model;
          modelItems := modelItems + [Check(displayName, SelectModel(model), Some(model) == currentModel)];
        }
      }
    }

    assert providerItems == seq(|providers|, i requires 0 <= i < |providers| => ProviderItem(providers[i], current));
    ghost var offered := OfferedModels(current, providers);
    assert modelItems == seq(|offered|, i requires 0 <= i < |offered| => ModelItem(offered[i], currentModel));
    items := [];
    if providerItems != [] {
      items := items + [Submenu("Provider", providerItems, true)];
    } else {
      items := items + [Submenu("Provider", [Placeholder("No providers available")], true)];
    }
    if modelItems != [] {
      items := items + [Submenu("OpenAI Model", modelItems, true)];
    }
  }

  /** The "Provider" submenu holds the placeholder exactly when there are no
      providers; the "OpenAI Model" submenu appears exactly when `openai` is
      current, some provider is named `openai`, and the first such lists a
      model. */
  lemma SttMenuShape<I>(current: string, providers: seq<Provider>, currentModel: Option<string>)
    ensures var menu := SttMenuSpec<I>(current, providers, currentModel);
      && 1 <= |menu| <= 2
      && (menu[0].children == [Placeholder("No providers available")] <==> providers == [])
      && (|menu| == 2 <==>
            && current == OpenAi
            && exists i :: 0 <= i < |providers| && providers[i].name == OpenAi && |providers[i].models| > 0
                           && forall j :: 0 <= j < i ==> providers[j].name != OpenAi)
      && (|menu| == 2 ==> menu[1].title == "OpenAI Model"
                          && |menu[1].children| == |OfferedModels(current, providers)|)
      && (|menu| == 2 ==> forall i :: 0 <= i < |menu[1].children| ==>
            var model := OfferedModels(current, providers)[i];
            && menu[1].children[i].title == ModelDisplayName(model)
            && menu[1].children[i].action == SelectModel(model)
            && menu[1].children[i].checked == Some(Some(model) == currentModel))
  {
  }

  /** When provider names are distinct, the provider list ticks exactly the
      current provider, or nothing when no provider has its name. */
  lemma OneProviderTicked<I>(current: string, providers: seq<Provider>, currentModel: Option<string>)
    requires forall i, j :: 0 <= i < j < |providers| ==> providers[i].name != providers[j].name
    ensures CheckedCount(SttMenuSpec<I>(current, providers, currentModel)[0].children)
      == if exists i :: 0 <= i < |providers| && providers[i].name == current then 1 else 0
  {
    var menu := SttMenuSpec<I>(current, providers, currentModel);
    var names := seq(|providers|, i requires 0 <= i < |providers| => providers[i].name);
    if providers == [] {
      assert menu[0].children == [Placeholder("No providers available")];
      assert CheckedCount(menu[0].children) == CheckedCount<I>([]);
    } else {
      OneTickPerSetting(menu[0].children, names, current);
      assert (current in names) <==> exists i :: 0 <= i < |providers| && providers[i].name == current by {
        if current in names {
          var k :| 0 <= k < |names| && names[k] == current;
          assert providers[k].name == current;
        }
        if exists i :: 0 <= i < |providers| && providers[i].name == current {
          var k :| 0 <= k < |providers| && providers[k].name == current;
          assert names[k] == current;
        }
      }
    }
  }

  // ---------------------------------------------------------------------
  // The whole menu (modules/tray.py:238-359)

  /** The settings the menu shows, read when it is built. */
  datatype Settings = Settings(
    cleanTranscription: bool,
    silentStartTimeout: Option<real>,
    indicatorSize: string,
    indicatorPosition: string)

  /** `create_copy_menu`: one entry per recent transcription, labelled with
      its preview (`app.history.get_preview`, an input here). */
  function CopyMenu<I>(recent: seq<string>, preview: string -> string): (r: seq<MenuItem<I>>)
  {
    seq(|recent|, i requires 0 <= i < |recent| => Plain(preview(recent[i]), CopyText(recent[i])))
  }

  /** What "Copy Last Transcription" puts on the clipboard
      (modules/tray.py:245-248): the newest text, if there is one. */
  function CopyLatestText(recent: seq<string>): Option<string>
  {
    if recent != [] then Some(recent[0]) else None
  }

  const Sizes: seq<string> := ["normal", "mini"]
  const SizeLabels: seq<string> := ["Normal Size", "Mini Size"]
  const Positions: seq<string> := ["top-left", "top-center", "top-right", "bottom-left", "bottom-center", "bottom-right"]
  const PositionLabels: seq<string> := ["Top Left", "Top Center", "Top Right", "Bottom Left", "Bottom Center", "Bottom Right"]

  function SizeItems<I>(s: Settings): seq<MenuItem<I>>
  {
    seq(|Sizes|, i requires 0 <= i < |Sizes| => Check(SizeLabels[i], SetIndicatorSize(Sizes[i]), s.indicatorSize == Sizes[i]))
  }

  function PositionItems<I>(s: Settings): seq<MenuItem<I>>
  {
    seq(|Positions|, i requires 0 <= i < |Positions| =>
      Check(PositionLabels[i], SetIndicatorPosition(Positions[i]), s.indicatorPosition == Positions[i]))
  }

  /** The "Recording Indicator" submenu. */
  function IndicatorMenu<I>(s: Settings): seq<MenuItem<I>>
  {
    SizeItems(s) + [Separator] + PositionItems(s)
  }

  /** How many entries of a list are ticked. */
  function CheckedCount<I>(items: seq<MenuItem<I>>): nat
  {
    if items == [] then 0
    else (if items[0].Item? && items[0].checked == Some(true) then 1 else 0) + CheckedCount(items[1..])
  }

  /** A list of check items, one per possible value of a setting, ticked
      where the value equals the setting, has one tick when the setting is one
      of the values and none otherwise. */
  lemma {:induction false} OneTickPerSetting<I>(items: seq<MenuItem<I>>, values: seq<string>, setting: string)
    requires |items| == |values|
    requires forall i :: 0 <= i < |items| ==> items[i].Item? && items[i].checked == Some(setting == values[i])
    requires forall i, j :: 0 <= i < j < |values| ==> values[i] != values[j]
    ensures CheckedCount(items) == if setting in values then 1 else 0
  {
    if items != [] {
      OneTickPerSetting(items[1..], values[1..], setting);
      assert values == [values[0]] + values[1..];
      if setting == values[0] {
        forall k | 0 <= k < |values[1..]| ensures values[1..][k] != setting {
          assert values[1..][k] == values[k + 1];
        }
      }
    }
  }

  /** The size choices and the position choices are each exclusive: one is
      ticked when the setting is a known value, none otherwise. */
  lemma IndicatorChoicesExclusive<I>(s: Settings)
    ensures CheckedCount(SizeItems<I>(s)) == if s.indicatorSize in Sizes then 1 else 0
    ensures CheckedCount(PositionItems<I>(s)) == if s.indicatorPosition in Positions then 1 else 0
  {
    OneTickPerSetting(SizeItems<I>(s), Sizes, s.indicatorSize);
    OneTickPerSetting(PositionItems<I>(s), Positions, s.indicatorPosition);
  }

  /** `_get_menu`, from the pieces the three builders produce. */
  function TrayMenu<I>(copyMenu: seq<MenuItem<I>>, hasLastRecording: bool, microphoneMenu: seq<MenuItem<I>>,
                       sttMenu: seq<MenuItem<I>>, s: Settings): seq<MenuItem<I>>
  {
    [ Item("Copy Last Transcription", CopyLatest, None, true, true),
      Item("\U{1F504} Retry Last Transcription", RetryTranscription, None, hasLastRecording, false),
      Submenu("Recent Transcriptions",
              if copyMenu != [] then copyMenu else [Placeholder("No transcriptions yet")],
              copyMenu != []),
      Submenu("Microphone", microphoneMenu, true),
      Submenu("Settings",
        [ Check("Clean Transcription", ToggleCleanTranscription, s.cleanTranscription),
          Check("Silent-Start Timeout", ToggleSilentStart, s.silentStartTimeout.Some?),
          Item("Smart Capture", NoAction, None, false, false),
          Submenu("Recording Indicator", IndicatorMenu(s), true),
          Submenu("Speech-to-Text", sttMenu, true) ], true),
      Plain("Restart", RestartApp),
      Plain("Exit", ExitApp) ]
  }

  /** `_get_menu` building the three dynamic parts first. */
  method GetMenu<I(==)>(recent: seq<string>, preview: string -> string, hasLastRecording: bool,
                        devices: seq<Device<I>>, current: Option<I>, favorites: seq<I>, defaultId: Option<int>,
                        provider: string, providers: seq<Provider>, currentModel: Option<string>, s: Settings)
    returns (menu: seq<MenuItem<I>>)
    ensures menu == TrayMenu(CopyMenu(recent, preview), hasLastRecording,
                             MicrophoneMenuSpec(devices, current, favorites, defaultId),
                             SttMenuSpec(provider, providers, currentModel), s)
  {
    var copyMenu := CopyMenu(recent, preview);
    var microphoneMenu := MicrophoneMenu(devices, current, favorites, defaultId);
    var sttMenu := SttProviderMenu(provider, providers, currentModel);
    menu := TrayMenu(copyMenu, hasLastRecording, microphoneMenu, sttMenu, s);
  }

  /** "Recent Transcriptions" is enabled exactly when there is history; it
      then copies each text in order, and "Copy Last Transcription" copies
      the same text as its first entry. Otherwise it holds the disabled
      placeholder and "Copy Last Transcription" copies nothing. */
  lemma RecentTranscriptionsRule<I>(recent: seq<string>, preview: string -> string, hasLastRecording: bool,
                                    microphoneMenu: seq<MenuItem<I>>, sttMenu: seq<MenuItem<I>>, s: Settings)
    ensures var menu := TrayMenu(CopyMenu(recent, preview), hasLastRecording, microphoneMenu, sttMenu, s);
      && menu[0].isDefault && menu[0].action == CopyLatest
      && (menu[2].enabled <==> recent != [])
      && (recent == [] ==> menu[2].children == [Placeholder("No transcriptions yet")]
                           && CopyLatestText(recent) == None)
      && (recent != [] ==> |menu[2].children| == |recent|
                           && (forall i :: 0 <= i < |recent| ==> menu[2].children[i].action == CopyText(recent[i]))
                           && CopyLatestText(recent) == Some(recent[0])
                           && menu[2].children[0].action == CopyText(CopyLatestText(recent).value))
  {
  }
}
