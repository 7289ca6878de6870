# Tray icon supervisor and menu rules of a voice-typing utility

This project models the core of `modules/tray.py` in a desktop voice-dictation
tool. The tool sits in the system tray. That file does two things:

- **Icon supervision.** `TrayIconManager` runs the native tray icon on a thread
  of its own. When the icon's run loop raises, it restarts it, but only up to a
  rate limit. A watchdog thread restarts the icon if the icon or its thread has
  died silently.
- **Menu construction.** A set of builders turns the application's state into the
  context menu: recent transcriptions, microphones (select and favourites),
  speech-to-text provider and model, and indicator settings.

The model has five modules:

- `Supervisor` (supervisor.dfy) holds the restart bookkeeping.
  - `RunLoop` is the pure specification of `_run_icon`, over a sequence of
    attempt outcomes.
  - The class `TrayIconManager` has the fields `running`, `hasIcon`,
    `restartCount`, `lastRestartTime`, and `spawned` (the threads started so far).
  - Its methods mirror `__init__`, `start`, `stop`, the crash branch,
    `_run_icon`, `_restart_icon` and one wake-up of `_watchdog`.
  - The clock is an input: each crash carries the time it was handled at.
- `DeviceOrder` (device_order.dfy) models Python's `sorted(..., key=name.lower())`.
  It is a stable insertion sort under code-point lexicographic order.
- `Favorites` (favorites.dfy) holds `list.remove`, the favourite toggle, and the
  class `MicrophoneSettings` whose handlers change the selected device and the
  favourites list.
- `Menu` (menu.dfy) holds the menu tree.
  - A click handler becomes an `Action` value.
  - `create_microphone_menu` and `create_stt_provider_menu` are loop methods,
    each proved against a specification function.
  - `_get_menu` is a method that assembles them.
- `Wrappers` (wrappers.dfy) holds `Option`.

Three points of the code's behaviour deserve a note:

- **Giving up is not permanent.** After the sixth quick crash, `_run_icon` leaves
  its loop (modules/tray.py:413-415). `running` stays true and `icon` is `None`
  (modules/tray.py:400). So the watchdog's next wake-up sees a dead icon and
  starts a new run-loop thread (modules/tray.py:431-436). `GiveUpIsNotFinal`
  proves this restart.
- **A normal return keeps the handle.** When `icon.run()` returns normally,
  `self.icon` is not cleared.
- **`start` keeps the counter.** `start` does not reset `restart_count`.

## Model

| member | source | states |
|---|---|---|
| `Supervisor.Bump` | modules/tray.py:406-411 | The rate-limit update sets the last restart time to the crash time. The count either resets to 1 or grows by exactly one, never anything else. |
| `Supervisor.TrayIconManager.constructor` | modules/tray.py:203-211 | A new manager is not running and has no icon. The count is 0, the last restart time is 0, and no thread has been started. |
| `Supervisor.TrayIconManager.Start` | modules/tray.py:459-469 | Sets running and starts the run-loop thread, then the watchdog thread, in that order. The bookkeeping is not reset. |
| `Supervisor.TrayIconManager.Stop` | modules/tray.py:473-484 | Clears running and leaves the icon absent. The bookkeeping is unchanged and no thread is started. |
| `Supervisor.TrayIconManager.HandleCrash` | modules/tray.py:396-415 | The icon becomes absent after any crash. When not running, the counters are unchanged and there is no retry. Otherwise the count becomes old+1 if the crash is less than 10 s after the last restart, else 1, and the last restart time becomes now. The loop retries exactly when the new count is at most 5. |
| `Supervisor.TrayIconManager.RunIcon` | modules/tray.py:382-418 | The loop's final bookkeeping, its exit reason and the number of loop iterations it began equal `RunLoop` of the old state. Running ends false only on a stop exit. The icon is present afterwards only if it is still running or returned normally. |
| `Supervisor.TrayIconManager.RestartIcon` | modules/tray.py:438-457 | Drops the icon. Starts one new run-loop thread if and only if the manager is running. The bookkeeping is unchanged. |
| `Supervisor.TrayIconManager.WatchdogTick` | modules/tray.py:424-436 | The watchdog keeps watching exactly while running. It restarts, adding exactly one run-loop thread, exactly when running and either the icon is absent or the thread is dead. Otherwise nothing changes. |
| `Supervisor.QuickSuccessionFrom` | modules/tray.py:405-418 | Take unstopped crashes each less than 10 s after the previous one, starting from count c with 1 ≤ c ≤ 5. The loop gives up after exactly 6−c loop iterations with count 6. If the crashes run out first, the count reaches c plus the number of crashes. |
| `Supervisor.QuickCrashesGiveUpAfterFiveRestarts` | modules/tray.py:210-211 | Start from the initial state with crashes in quick succession. More than 5 crashes make the loop give up after 6 loop iterations, that is, 5 restarts. Fewer crashes are all restarted. |
| `Supervisor.GivingUpTakesSixCrashes` | modules/tray.py:405-415 | Whatever the timing and stops, the loop only gives up after at least 6−count loop iterations. From the initial state that is 6. |
| `Supervisor.SpacedCrashesNeverGiveUp` | modules/tray.py:407-410 | Unstopped crashes each at least 10 s apart are restarted every time, and the loop never gives up. The last restart time ends at the last crash. The count ends at 1, except after a single crash less than 10 s after the previous restart, which gives old+1. |
| `Supervisor.StopEndsSupervision` | modules/tray.py:382-484 | After `stop`, whatever ran before: the run loop creates no icon, `_restart_icon` starts no thread, and the watchdog leaves its loop. |
| `Supervisor.CrashOnceThenRecover` | modules/tray.py:396-418 | After start, one crash followed by an icon that stays up leaves count 1, with the icon present and still running. |
| `Supervisor.GiveUpIsNotFinal` | modules/tray.py:413-436 | After six quick crashes the loop gives up, and yet the watchdog's next wake-up restarts the icon. |
| `DeviceOrder.SortByNameSpec` | modules/tray.py:44 | The sorted devices are a permutation of the input, in non-decreasing order of lower-cased name. |
| `DeviceOrder.SortByNameStable` | modules/tray.py:44 | Devices whose names are equal up to case keep their input order, as Python's stable `sorted` does. |
| `Favorites.RemoveFirstCuts` | modules/tray.py:64 | `remove` deletes exactly the first occurrence and keeps everything before and after it. |
| `Favorites.ToggleFlips` | modules/tray.py:61-68 | On a duplicate-free favourites list, the toggle flips membership of the device's identifier, keeps the list duplicate-free, and leaves every other identifier's membership unchanged. |
| `Favorites.ToggleKeepsOthers` | modules/tray.py:61-68 | For any list, the entries other than the toggled identifier keep their relative order. |
| `Favorites.ToggleTwiceRestores` | modules/tray.py:63-66 | Toggling a non-favourite twice gives back the original list. |
| `Favorites.MicrophoneSettings.ToggleFavorite` | modules/tray.py:58-68 | The favourites list becomes the toggled list. The identifier's first occurrence is removed if present, otherwise it is appended. The selected device is unchanged. |
| `Favorites.MicrophoneSettings.SelectDevice` | modules/tray.py:49-52 | The selected microphone becomes the device's identifier. The favourites are unchanged. |
| `Menu.SelectLabelBadge` | modules/tray.py:82-88 | A "Select Device" label reads back as exactly one status plus the device name. The default device shows the default prefix even when it is a favourite. A non-default favourite shows the star. Any other device shows padding. |
| `Menu.ManageLabelBadge` | modules/tray.py:82-96 | A "Manage Favorites" label reads back as the default status or none, never the star, plus the device name. |
| `Menu.MicrophoneMenu` | modules/tray.py:42-114 | The loop builds exactly the specified three entries: "Select Device", "Manage Favorites" and "Refresh Devices". |
| `Menu.MicrophoneMenuListsDevices` | modules/tray.py:44-100 | Both submenus list every device once, as a permutation sorted by lower-cased name. A select entry is checked iff its identifier is the current one. A favourites entry is checked iff it is a favourite. Each label carries the right status and the name. |
| `Menu.FindProvider` | modules/tray.py:151 | The search returns nothing iff no provider has the name. Otherwise it returns the first provider with that name. |
| `Menu.ModelDisplayNames` | modules/tray.py:154-158 | The three known model ids map to "GPT-4o (Best)", "GPT-4o Mini" and "Whisper (Legacy)". Every other id maps to itself. |
| `Menu.SttProviderMenu` | modules/tray.py:116-189 | The loops build exactly the specified provider submenu and optional model submenu. |
| `Menu.SttMenuShape` | modules/tray.py:147-187 | The provider submenu holds the disabled placeholder iff there are no providers. The model submenu appears iff the current provider is `openai` and the first provider named `openai` lists at least one model. It then has one entry per model, in order. Entry i shows the model's display name, selects that model, and is checked iff it is the current model. |
| `Menu.OneProviderTicked` | modules/tray.py:137-145 | When provider names are distinct, exactly one provider entry is ticked if some provider has the current name, and none otherwise. |
| `Menu.OneTickPerSetting` | modules/tray.py:308-348 | A list of check items, one per distinct setting value, has one tick if the setting is one of the values and none otherwise. |
| `Menu.IndicatorChoicesExclusive` | modules/tray.py:305-349 | Of the two size items and of the six position items, exactly one is ticked when the setting is known, and none otherwise. |
| `Menu.GetMenu` | modules/tray.py:238-359 | The menu is the specified tree built from the copy, microphone and speech-to-text menus of the same state. |
| `Menu.RecentTranscriptionsRule` | modules/tray.py:245-282 | "Copy Last Transcription" is the default item. "Recent Transcriptions" is enabled iff the history is non-empty. It then copies each text in order, and "Copy Last Transcription" copies element 0. When the history is empty, it holds the disabled placeholder and nothing is copied. |

## Left out

- `modules/clean_text.py` is not part of this model. It fills a fixed prompt and makes one network call to a completion API.
- The threads themselves are not modelled: `icon_lock`, the watchdog's 30 s sleep, the 2 s restart delay, `join(timeout=2)` and daemon flags. A started thread is only an entry in `spawned`.
- Interleavings are modelled only at three points in a crashed attempt: no stop, a `stop()` before the crash branch checks `running`, or a `stop()` during the restart delay. `Supervisor.TrayIconManager.RunIcon` covers no other interleaving.
- Native calls are not modelled: pystray, PIL image loading, pyperclip, `RegisterWindowMessageW` through ctypes, and `os._exit`. `create_tray_icon` (loads the icon image) is left out; `_create_icon` and `update_menu` appear only through the menu value they would install. `_register_taskbar_created_message` is left out. `update_icon` sets the tray image and tooltip and is left out as well. Their swallowed exceptions and log messages are left out too.
- `setup_tray_icon` is modelled as the `TrayIconManager` constructor followed by `Start`. Publishing the manager and its two methods on `app` is left out.
- The collaborators are inputs rather than models: `audio_manager` (device list, default id, device identifiers, `set_input_device`), `transcribe` (current and available providers, `set_stt_provider`), `app.settings` persistence, `app.history` (texts and previews) and `ui_feedback`. Handlers other than the two in `MicrophoneSettings` appear only as `Action` values.
- `DeviceOrder.Key`: lowers only the ASCII letters. Python's `str.lower` also folds non-ASCII letters, so two non-ASCII names may sort differently here.
- `Menu.RecentTranscriptionsRule`: `copy_latest_transcription` reads the history when it is clicked (modules/tray.py:246). The "Recent Transcriptions" entries capture their texts when the menu is built (modules/tray.py:31-39). The model uses the history from build time for both. So it does not cover a history that changed since the last rebuild, where the two can differ.
- `Menu.TrayMenu`: the `checked` and `enabled` callbacks are evaluated when the menu is drawn. The model evaluates them once, with the state the menu is built from.
- `Favorites.MicrophoneSettings.ToggleFavorite`: `app.settings.get` may return the very list object that a built menu's `checked` callbacks still hold. That aliasing is not modelled; the list is a value.
