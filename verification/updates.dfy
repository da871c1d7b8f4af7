/** Update selection and the update screens' state: choosing the best release
    channel of a manifest, the download URL for the device's ABI, the
    changelog since the running version, the view model that runs checks and
    downloads, the changelog dialog text, and the legacy once-a-day
    notification throttle. Times are milliseconds since the epoch; whether
    two times fall on the same calendar day is decided by a `dayOf` function
    supplied by the caller (the platform calendar). */
module Updates {
  import opened Strings

  datatype UpdateChannel = UpdateChannel(
    name: string,
    latestVersionName: string,
    latestVersionCode: int,
    minApi: int,
    url: string,
    urls: seq<string>)

  /** A channel declared without the optional fields. */
  function ChannelWithDefaults(name: string, versionName: string, versionCode: int, url: string): (c: UpdateChannel)
    ensures c.minApi == 21 && c.urls == []
    ensures c.name == name && c.latestVersionName == versionName && c.latestVersionCode == versionCode && c.url == url
  {
    UpdateChannel(name, versionName, versionCode, 21, url, [])
  }

  datatype ChangelogEntry = ChangelogEntry(versionCode: int, versionName: string, changes: string)

  datatype Manifest = Manifest(channels: seq<UpdateChannel>, changelog: seq<ChangelogEntry>)

  /** The selected update for this device and the requested channels. */
  datatype UpdateInfo = UpdateInfo(
    latestVersionCode: int,
    latestVersionName: string,
    channel: string,
    downloadUrl: string,
    changelog: seq<ChangelogEntry>,
    availableChannels: seq<string>)

  datatype UpdateResult = NoUpdate | UpdateAvailable(info: UpdateInfo) | Error(message: string)

  predicate HasUpdate(info: UpdateInfo, currentVersionCode: int) {
    info.latestVersionCode > currentVersionCode
  }

  /** `a` can be obtained from `b` by deleting elements. */
  predicate IsSubsequence<T(==)>(a: seq<T>, b: seq<T>)
    decreases |b|
  {
    a == [] || (b != [] && ((a[0] == b[0] && IsSubsequence(a[1..], b[1..])) || IsSubsequence(a, b[1..])))
  }

  /** `changelogSince`: the entries newer than the given version, in their
      original order. */
  function ChangelogSince(changelog: seq<ChangelogEntry>, currentVersionCode: int): (r: seq<ChangelogEntry>)
    ensures forall e :: e in r <==> e in changelog && e.versionCode > currentVersionCode
    ensures IsSubsequence(r, changelog)
  {
    if changelog == [] then []
    else
      var rest := ChangelogSince(changelog[1..], currentVersionCode);
      if changelog[0].versionCode > currentVersionCode then
        assert ([changelog[0]] + rest)[1..] == rest;
        [changelog[0]] + rest
      else rest
  }

  /** Filtering twice keeps what the stricter filter keeps. */
  lemma {:induction false} ChangelogSinceTwice(changelog: seq<ChangelogEntry>, c1: int, c2: int)
    requires c1 <= c2
    ensures ChangelogSince(ChangelogSince(changelog, c1), c2) == ChangelogSince(changelog, c2)
  {
    if changelog != [] {
      ChangelogSinceTwice(changelog[1..], c1, c2);
      var rest := ChangelogSince(changelog[1..], c1);
      if changelog[0].versionCode > c1 {
        assert ([changelog[0]] + rest)[1..] == rest;
      }
    }
  }

  /** A newer running version sees a sub-list of what an older one sees. */
  lemma ChangelogSinceMonotone(changelog: seq<ChangelogEntry>, c1: int, c2: int)
    requires c1 <= c2
    ensures IsSubsequence(ChangelogSince(changelog, c2), ChangelogSince(changelog, c1))
  {
    ChangelogSinceTwice(changelog, c1, c2);
  }

  /** A channel can be chosen when it was asked for and the device's API
      level is high enough. */
  predicate Eligible(c: UpdateChannel, channelsToCheck: seq<string>, deviceApi: int) {
    c.name in channelsToCheck && deviceApi >= c.minApi
  }

  /** Index of the best channel: eligible, highest version code, earliest on
      ties; -1 when no channel is eligible. */
  function BestIndex(cs: seq<UpdateChannel>, channelsToCheck: seq<string>, deviceApi: int): (b: int)
    ensures -1 <= b < |cs|
    ensures b == -1 <==> forall j :: 0 <= j < |cs| ==> !Eligible(cs[j], channelsToCheck, deviceApi)
    ensures b >= 0 ==> Eligible(cs[b], channelsToCheck, deviceApi)
    ensures b >= 0 ==> forall j :: 0 <= j < |cs| && Eligible(cs[j], channelsToCheck, deviceApi) ==>
                                     cs[j].latestVersionCode <= cs[b].latestVersionCode
    ensures b >= 0 ==> forall j :: 0 <= j < b && Eligible(cs[j], channelsToCheck, deviceApi) ==>
                                     cs[j].latestVersionCode < cs[b].latestVersionCode
  {
    if cs == [] then -1
    else
      var n := |cs| - 1;
      var prefix := cs[..n];
      var b := BestIndex(prefix, channelsToCheck, deviceApi);
      assert forall j :: 0 <= j < n ==> prefix[j] == cs[j];
      if Eligible(cs[n], channelsToCheck, deviceApi) && (b == -1 || cs[n].latestVersionCode > cs[b].latestVersionCode)
      then n
      else b
  }

  /** The chooser loop of `checkForUpdates`: a single pass over the manifest's
      channels keeping the best one so far. */
  method ChooseChannel(channels: seq<UpdateChannel>, channelsToCheck: seq<string>, deviceApi: int)
    returns (chosen: Option<UpdateChannel>)
    ensures var b := BestIndex(channels, channelsToCheck, deviceApi);
            chosen == if b == -1 then None else Some(channels[b])
  {
    chosen := None;
    for i := 0 to |channels|
      invariant var b := BestIndex(channels[..i], channelsToCheck, deviceApi);
                chosen == if b == -1 then None else Some(channels[b])
    {
      assert channels[..i + 1][..i] == channels[..i];
      var channel := channels[i];
      if channel.name !in channelsToCheck { continue; }
      if deviceApi < channel.minApi { continue; }
      if chosen.None? || channel.latestVersionCode > chosen.value.latestVersionCode {
        chosen := Some(channel);
      }
    }
    assert channels[..|channels|] == channels;
  }

  /** The first URL with the given suffix, ignoring (ASCII) case. */
  function FirstEndingWith(urls: seq<string>, suffix: string): (r: Option<string>)
    ensures r.None? <==> forall i :: 0 <= i < |urls| ==> !EndsWithIgnoreCase(urls[i], suffix)
    ensures r.Some? ==> exists k :: 0 <= k < |urls| && urls[k] == r.value && EndsWithIgnoreCase(urls[k], suffix)
                                    && forall j :: 0 <= j < k ==> !EndsWithIgnoreCase(urls[j], suffix)
  {
    if urls == [] then None
    else if EndsWithIgnoreCase(urls[0], suffix) then Some(urls[0])
    else
      var r := FirstEndingWith(urls[1..], suffix);
      assert forall j :: 1 <= j < |urls| ==> urls[j] == urls[1..][j - 1];
      r
  }

  /** The file-name ending a download for the device's primary ABI has. */
  function AbiSuffix(supportedAbis: seq<string>): string {
    (if supportedAbis == [] then "" else supportedAbis[0]) + ".apk"
  }

  /** `selectBestUrlForAbi`: the first of the channel's URLs that ends in
      "<primary ABI>.apk", else the channel's main URL. */
  function SelectBestUrlForAbi(channel: UpdateChannel, supportedAbis: seq<string>): (r: string)
    ensures channel.urls == [] ==> r == channel.url
    ensures (forall i :: 0 <= i < |channel.urls| ==> !EndsWithIgnoreCase(channel.urls[i], AbiSuffix(supportedAbis)))
            ==> r == channel.url
    ensures (exists i :: 0 <= i < |channel.urls| && EndsWithIgnoreCase(channel.urls[i], AbiSuffix(supportedAbis)))
            ==> exists k :: 0 <= k < |channel.urls| && r == channel.urls[k]
                            && EndsWithIgnoreCase(channel.urls[k], AbiSuffix(supportedAbis))
                            && forall j :: 0 <= j < k ==> !EndsWithIgnoreCase(channel.urls[j], AbiSuffix(supportedAbis))
  {
    if channel.urls == [] then channel.url
    else FirstEndingWith(channel.urls, AbiSuffix(supportedAbis)).GetOr(channel.url)
  }

  /** `distinct()` of the elements not in `seen`: each once, in order of first
      appearance. */
  function DistinctFrom(s: seq<string>, seen: set<string>): (r: seq<string>)
    ensures forall x :: x in r <==> x in s && x !in seen
    ensures forall i, j :: 0 <= i < j < |r| ==> r[i] != r[j]
  {
    if s == [] then []
    else if s[0] in seen then DistinctFrom(s[1..], seen)
    else
      var rest := DistinctFrom(s[1..], seen + {s[0]});
      var r := [s[0]] + rest;
      assert forall i :: 1 <= i < |r| ==> r[i] == rest[i - 1];
      r
  }

  /** `distinct()` keeps the order of first appearance: the distinct
      elements of a prefix of `s` start the distinct elements of `s`. */
  lemma {:induction false} DistinctFromPrefix(s: seq<string>, seen: set<string>, n: nat)
    requires n <= |s|
    ensures DistinctFrom(s[..n], seen) <= DistinctFrom(s, seen)
  {
    if n > 0 {
      var seen' := if s[0] in seen then seen else seen + {s[0]};
      assert s[..n][0] == s[0] && s[..n][1..] == s[1..][..n - 1];
      DistinctFromPrefix(s[1..], seen', n - 1);
    }
  }

  /** The names of the manifest's channels, each once, in first-appearance order. */
  function AvailableChannels(channels: seq<UpdateChannel>): (r: seq<string>)
    ensures forall x :: x in r <==> exists i :: 0 <= i < |channels| && channels[i].name == x
    ensures forall i, j :: 0 <= i < j < |r| ==> r[i] != r[j]
  {
    var names := seq(|channels|, i requires 0 <= i < |channels| => channels[i].name);
    forall x ensures x in names <==> exists i :: 0 <= i < |channels| && channels[i].name == x {
      if x in names {
        var i :| 0 <= i < |names| && names[i] == x;
        assert channels[i].name == x;
      }
      if exists i :: 0 <= i < |channels| && channels[i].name == x {
        var i :| 0 <= i < |channels| && channels[i].name == x;
        assert names[i] == x;
      }
    }
    DistinctFrom(names, {})
  }

  /** What fetching the manifest gave: the manifest, or the failure raised. */
  datatype Fetched = Fetched(manifest: Manifest) | FetchFailed(message: string)

  /** `checkForUpdates`. */
  method CheckForUpdates(fetched: Fetched, currentVersionCode: int, channelsToCheck: seq<string>,
                         deviceApi: int, supportedAbis: seq<string>)
    returns (r: UpdateResult)
    ensures fetched.FetchFailed? ==> r == Error(fetched.message)
    ensures fetched.Fetched? ==>
              var cs := fetched.manifest.channels;
              var b := BestIndex(cs, channelsToCheck, deviceApi);
              && (b == -1 ==> r == NoUpdate)
              && (b >= 0 ==> (r.UpdateAvailable? <==> cs[b].latestVersionCode > currentVersionCode)
                             && (r.UpdateAvailable? || r == NoUpdate))
              && (r.UpdateAvailable? ==>
                    r.info == UpdateInfo(cs[b].latestVersionCode, cs[b].latestVersionName, cs[b].name,
                                         SelectBestUrlForAbi(cs[b], supportedAbis),
                                         fetched.manifest.changelog, AvailableChannels(cs)))
  {
    if fetched.FetchFailed? {
      return Error(fetched.message);
    }
    var manifest := fetched.manifest;
    var availableChannels := AvailableChannels(manifest.channels);
    var chosen := ChooseChannel(manifest.channels, channelsToCheck, deviceApi);
    if chosen.None? {
      return NoUpdate;
    }
    var ch := chosen.value;
    var info := UpdateInfo(ch.latestVersionCode, ch.latestVersionName, ch.name,
                           SelectBestUrlForAbi(ch, supportedAbis), manifest.changelog, availableChannels);
    if HasUpdate(info, currentVersionCode) {
      r := UpdateAvailable(info);
    } else {
      r := NoUpdate;
    }
  }

  // ---- the updates view model ----------------------------------------------

  datatype DownloadProgress = DownloadProgress(bytesRead: int, totalBytes: Option<int>, percent: Option<int>, done: bool)

  datatype UpdatesEvent =
    | ShowUpdateAvailable(info: UpdateInfo)
    | RequestInstallApk(file: string)
    | ToastMessage(message: string)

  /** The once-a-day throttle of the automatic check: a recorded time (when
      positive) on today's date suppresses it. */
  predicate CheckedToday(lastTime: int, now: int, dayOf: int -> int) {
    lastTime > 0 && dayOf(lastTime) == dayOf(now)
  }

  class UpdatesViewModel {
    var isChecking: bool
    var lastResult: Option<UpdateResult>
    var isDownloading: bool
    var downloadProgress: Option<DownloadProgress>
    var events: seq<UpdatesEvent>
    /** The persisted time of the last check (settings' last-notification time). */
    var lastCheckTime: int
    /** The user's auto-check setting. */
    var autoCheckUpdates: bool
    /** Whether this build ships its own updater (a build constant). */
    const builtInAutoUpdate: bool

    constructor (lastCheckTime: int, autoCheckUpdates: bool, builtInAutoUpdate: bool)
      ensures !isChecking && lastResult.None? && !isDownloading && downloadProgress.None? && events == []
      ensures this.lastCheckTime == lastCheckTime && this.autoCheckUpdates == autoCheckUpdates
      ensures this.builtInAutoUpdate == builtInAutoUpdate
    {
      isChecking := false;
      lastResult := None;
      isDownloading := false;
      downloadProgress := None;
      events := [];
      this.lastCheckTime := lastCheckTime;
      this.autoCheckUpdates := autoCheckUpdates;
      this.builtInAutoUpdate := builtInAutoUpdate;
    }

    predicate NeedAutoCheckUpdates()
      reads this
    {
      autoCheckUpdates && builtInAutoUpdate
    }

    /** The start of a check: a no-op while one is running, otherwise it marks
        the check as running and forgets the last result. */
    method BeginCheck() returns (started: bool)
      modifies this`isChecking, this`lastResult
      ensures started <==> !old(isChecking)
      ensures started ==> isChecking && lastResult.None?
      ensures !started ==> isChecking && lastResult == old(lastResult)
    {
      if isChecking {
        return false;
      }
      isChecking := true;
      lastResult := None;
      return true;
    }

    /** The end of a started check, once the repository answered `result` at
        time `now`: the time is recorded whatever the result, and the
        update-available event is emitted only for an available update. */
    method FinishCheck(result: UpdateResult, now: int, emitDialogEventIfUpdate: bool)
      requires isChecking
      modifies this`isChecking, this`lastResult, this`lastCheckTime, this`events
      ensures !isChecking && lastResult == Some(result) && lastCheckTime == now
      ensures events == old(events) + (if emitDialogEventIfUpdate && result.UpdateAvailable?
                                       then [ShowUpdateAvailable(result.info)] else [])
    {
      lastCheckTime := now;
      isChecking := false;
      lastResult := Some(result);
      if emitDialogEventIfUpdate && result.UpdateAvailable? {
        events := events + [ShowUpdateAvailable(result.info)];
      }
    }

    /** `checkAutoIfNeeded`: starts a check unless auto checks are off or a
        check was already recorded today. */
    method CheckAutoIfNeeded(now: int, dayOf: int -> int) returns (started: bool)
      modifies this`isChecking, this`lastResult
      ensures started <==> NeedAutoCheckUpdates() && !CheckedToday(lastCheckTime, now, dayOf) && !old(isChecking)
      ensures !started ==> lastResult == old(lastResult)
      ensures started ==> isChecking && lastResult.None?
    {
      if !NeedAutoCheckUpdates() {
        return false;
      }
      if lastCheckTime > 0 && dayOf(lastCheckTime) == dayOf(now) {
        return false;
      }
      started := BeginCheck();
    }

    /** The start of `downloadAndRequestInstall`: a no-op while a download
        runs, otherwise the progress is reset. */
    method BeginDownload() returns (started: bool)
      modifies this`isDownloading, this`downloadProgress
      ensures started <==> !old(isDownloading)
      ensures isDownloading
      ensures started ==> downloadProgress.None?
      ensures !started ==> downloadProgress == old(downloadProgress)
    {
      if isDownloading {
        return false;
      }
      isDownloading := true;
      downloadProgress := None;
      return true;
    }

    /** One progress report of the running download: installation is asked for
        only when the download is done and produced a file. */
    method OnDownloadProgress(progress: DownloadProgress, file: Option<string>)
      requires isDownloading
      modifies this`downloadProgress, this`events
      ensures downloadProgress == Some(progress)
      ensures events == old(events) + (if progress.done && file.Some? then [RequestInstallApk(file.value)] else [])
    {
      downloadProgress := Some(progress);
      if progress.done && file.Some? {
        events := events + [RequestInstallApk(file.value)];
      }
    }

    /** The end of the download, normal or failed (`failure` is the message of
        the failure raised): the flag is always cleared, a failure is
        reported in a toast. */
    method FinishDownload(failure: Option<string>)
      modifies this`isDownloading, this`events
      ensures !isDownloading
      ensures events == old(events) + (if failure.Some? then [ToastMessage("Download failed: " + failure.value)] else [])
    {
      if failure.Some? {
        events := events + [ToastMessage("Download failed: " + failure.value)];
      }
      isDownloading := false;
    }
  }

  // ---- the update dialogs ----------------------------------------------------

  /** The HTML block of one changelog entry: the version name in bold, then
      the changes with each line break turned into `<br>`. */
  function EntryHtml(e: ChangelogEntry): string {
    "<b>" + e.versionName + "</b><br>" + ReplaceAll(e.changes, "\n", "<br>") + "<br><br>"
  }

  /** The dialog text: the blocks of all entries, in order. */
  function ChangelogHtml(entries: seq<ChangelogEntry>): (r: string)
    ensures entries == [] ==> r == []
    ensures entries != [] ==> |r| >= 11 * |entries|
  {
    if entries == [] then [] else ChangelogHtml(entries[..|entries| - 1]) + EntryHtml(entries[|entries| - 1])
  }

  /** Replacing the line breaks leaves none. */
  lemma {:induction false} NoLineBreakAfterReplace(s: string)
    ensures '\n' !in ReplaceAll(s, "\n", "<br>")
    decreases |s|
  {
    if |s| >= 1 {
      NoLineBreakAfterReplace(s[1..]);
      assert s[1..] == s[|"\n"|..];
    }
  }

  /** The dialog text has no raw line break as long as no version name has one. */
  lemma {:induction false} ChangelogHtmlHasNoLineBreak(entries: seq<ChangelogEntry>)
    requires forall i :: 0 <= i < |entries| ==> '\n' !in entries[i].versionName
    ensures '\n' !in ChangelogHtml(entries)
  {
    if entries != [] {
      var last := entries[|entries| - 1];
      ChangelogHtmlHasNoLineBreak(entries[..|entries| - 1]);
      NoLineBreakAfterReplace(last.changes);
    }
  }

  /** Appending an entry's pieces one by one appends its block. */
  lemma AppendEntryHtml(m: string, e: ChangelogEntry)
    ensures m + "<b>" + e.versionName + "</b><br>" + ReplaceAll(e.changes, "\n", "<br>") + "<br><br>"
            == m + EntryHtml(e)
  {
  }

  /** The message-building loop of `showUpdateAvailableDialog`. */
  method BuildChangelogMessage(entries: seq<ChangelogEntry>) returns (message: string)
    ensures message == ChangelogHtml(entries)
  {
    message := "";
    for i := 0 to |entries|
      invariant message == ChangelogHtml(entries[..i])
    {
      assert entries[..i + 1][..i] == entries[..i];
      ghost var before := message;
      message := message + "<b>" + entries[i].versionName + "</b><br>";
      message := message + ReplaceAll(entries[i].changes, "\n", "<br>");
      message := message + "<br><br>";
      AppendEntryHtml(before, entries[i]);
    }
    assert entries[..|entries|] == entries;
  }

  /** `showUpdateAvailableDialog`: no dialog without an update; otherwise the
      dialog shows the changelog entries newer than the running version. */
  method UpdateAvailableDialog(info: UpdateInfo, versionCode: int) returns (message: Option<string>)
    ensures message.None? <==> !HasUpdate(info, versionCode)
    ensures message.Some? ==> message.value == ChangelogHtml(ChangelogSince(info.changelog, versionCode))
  {
    if !HasUpdate(info, versionCode) {
      return None;
    }
    var text := BuildChangelogMessage(ChangelogSince(info.changelog, versionCode));
    message := Some(text);
  }

  /** The download dialog's progress bar. */
  class ProgressBar {
    var isIndeterminate: bool
    var max: int
    var progress: int

    constructor ()
      ensures isIndeterminate && max == 100 && progress == 0
    {
      isIndeterminate := true;
      max := 100;
      progress := 0;
    }

    /** `updateProgressBar`: nothing without a report; indeterminate when the
        total or the percentage is unknown; otherwise a 0..100 bar at the
        percentage. */
    method Update(p: Option<DownloadProgress>)
      modifies this
      ensures p.None? ==> isIndeterminate == old(isIndeterminate) && max == old(max) && progress == old(progress)
      ensures p.Some? && (p.value.totalBytes.None? || p.value.percent.None?) ==>
                isIndeterminate && max == old(max) && progress == old(progress)
      ensures p.Some? && p.value.totalBytes.Some? && p.value.percent.Some? ==>
                !isIndeterminate && max == 100 && progress == p.value.percent.value
    {
      if p.None? {
        return;
      }
      if p.value.totalBytes.None? || p.value.percent.None? {
        isIndeterminate := true;
      } else {
        isIndeterminate := false;
        max := 100;
        progress := p.value.percent.value;
      }
    }
  }

  // ---- the legacy automatic update check ---------------------------------

  /** `lastUpdateNotificationTime` AS WRITTEN: the stored time when positive,
      otherwise the current time. */
  function LegacyLastNotificationTime(stored: int, now: int): (t: int)
    ensures stored > 0 ==> t == stored
    ensures stored <= 0 ==> t == now
  {
    if stored > 0 then stored else now
  }

  /** As written, "notified today" holds whenever nothing was stored yet,
      because the missing time is read as "now". */
  predicate LegacyNotifiedToday(stored: int, now: int, dayOf: int -> int)
    ensures stored <= 0 ==> LegacyNotifiedToday(stored, now, dayOf)
    ensures stored > 0 ==> (LegacyNotifiedToday(stored, now, dayOf) <==> dayOf(stored) == dayOf(now))
  {
    dayOf(LegacyLastNotificationTime(stored, now)) == dayOf(now)
  }

  /** As written, a fresh installation (no stored time) never checks
      automatically at start-up and never shows an unforced update dialog:
      both gates see "already notified today". */
  lemma FreshInstallNeverNotified(now: int, dayOf: int -> int, need: bool, hasResult: bool, hasUpdate: bool)
    ensures LegacyNotifiedToday(0, now, dayOf)
    ensures !LegacyStartupGate(need, hasResult, LegacyNotifiedToday(0, now, dayOf))
    ensures !ShowDialogGate(false, LegacyNotifiedToday(0, now, dayOf), hasUpdate)
  {
  }

  /** "Notified today" as intended: a missing time means never notified;
      this is also the rule of the newer updates view model. */
  predicate NotifiedToday(stored: int, now: int, dayOf: int -> int) {
    stored > 0 && dayOf(stored) == dayOf(now)
  }

  /** The intended rule differs from the written one exactly on a missing
      time, agrees with the newer throttle, and lets a fresh installation
      check and notify. */
  lemma NotifiedTodayCorrected(stored: int, now: int, dayOf: int -> int, need: bool, hasUpdate: bool)
    ensures stored > 0 ==> (NotifiedToday(stored, now, dayOf) <==> LegacyNotifiedToday(stored, now, dayOf))
    ensures NotifiedToday(stored, now, dayOf) <==> CheckedToday(stored, now, dayOf)
    ensures !NotifiedToday(0, now, dayOf)
    ensures LegacyStartupGate(need, false, NotifiedToday(0, now, dayOf)) <==> need
    ensures ShowDialogGate(false, NotifiedToday(0, now, dayOf), hasUpdate) <==> hasUpdate
  {
  }

  /** The start-up condition of the legacy activity's state loading: auto
      checks wanted, no check result yet, and not notified today. */
  predicate LegacyStartupGate(needAutoCheck: bool, hasCheckResult: bool, notifiedToday: bool) {
    needAutoCheck && !hasCheckResult && !notifiedToday
  }

  /** `showUpdateDialogIfNeeded`'s guards: an unforced show is skipped on a
      day already notified, and any show is skipped without an update. */
  predicate ShowDialogGate(force: bool, notifiedToday: bool, hasUpdate: bool) {
    (force || !notifiedToday) && hasUpdate
  }

  /** The legacy automatic update view model. The update checker it drives is
      represented by its last result: the latest version code it found. */
  class AutoUpdateViewModel {
    /** The persisted time of the last update notification (0: none). */
    var storedNotificationTime: int
    var autoCheckUpdates: bool
    const builtInAutoUpdate: bool
    const currentVersionCode: int
    var versionCheckResult: Option<int>
    var callbacksRun: nat
    var dialogsShown: nat

    constructor (stored: int, autoCheckUpdates: bool, builtInAutoUpdate: bool, currentVersionCode: int)
      ensures storedNotificationTime == stored && this.autoCheckUpdates == autoCheckUpdates
      ensures this.builtInAutoUpdate == builtInAutoUpdate && this.currentVersionCode == currentVersionCode
      ensures versionCheckResult.None? && callbacksRun == 0 && dialogsShown == 0
    {
      storedNotificationTime := stored;
      this.autoCheckUpdates := autoCheckUpdates;
      this.builtInAutoUpdate := builtInAutoUpdate;
      this.currentVersionCode := currentVersionCode;
      versionCheckResult := None;
      callbacksRun := 0;
      dialogsShown := 0;
    }

    predicate NeedAutoCheckUpdates()
      reads this
    {
      autoCheckUpdates && builtInAutoUpdate
    }

    predicate CheckerHasUpdate()
      reads this
    {
      versionCheckResult.Some? && versionCheckResult.value > currentVersionCode
    }

    /** `checkUpdate`: asks the checker only when it has no result yet or the
        check is forced (`fetched` is what the checker found; None: the check
        failed and the failure was swallowed); the callback always runs. */
    method CheckUpdate(force: bool, fetched: Option<int>)
      modifies this`versionCheckResult, this`callbacksRun
      ensures callbacksRun == old(callbacksRun) + 1
      ensures (old(versionCheckResult).None? || force) && fetched.Some? ==> versionCheckResult == fetched
      ensures !((old(versionCheckResult).None? || force) && fetched.Some?) ==>
                versionCheckResult == old(versionCheckResult)
    {
      if versionCheckResult.None? || force {
        if fetched.Some? {
          versionCheckResult := fetched;
        }
      }
      callbacksRun := callbacksRun + 1;
    }

    /** `showUpdateDialogIfNeeded` as written (a missing time reads as "now"):
        the dialog is shown, and `now` recorded, exactly when the guards pass. */
    method ShowUpdateDialogIfNeeded(force: bool, now: int, dayOf: int -> int) returns (shown: bool)
      modifies this`storedNotificationTime, this`dialogsShown
      ensures shown <==> ShowDialogGate(force, LegacyNotifiedToday(old(storedNotificationTime), now, dayOf), CheckerHasUpdate())
      ensures shown ==> storedNotificationTime == now && dialogsShown == old(dialogsShown) + 1
      ensures !shown ==> storedNotificationTime == old(storedNotificationTime) && dialogsShown == old(dialogsShown)
    {
      if LegacyNotifiedToday(storedNotificationTime, now, dayOf) && !force {
        return false;
      }
      if !CheckerHasUpdate() {
        return false;
      }
      storedNotificationTime := now;
      dialogsShown := dialogsShown + 1;
      return true;
    }

    /** The start-up gate of the legacy activity, with its "same day" test as
        written, followed by the check and, when it found an update, the
        unforced dialog. Only a stored time lets the gate through. */
    method StartupAutoCheck(now: int, dayOf: int -> int, fetched: Option<int>) returns (checked: bool, shown: bool)
      modifies this`versionCheckResult, this`callbacksRun, this`storedNotificationTime, this`dialogsShown
      ensures checked <==> LegacyStartupGate(NeedAutoCheckUpdates(), old(versionCheckResult).Some?,
                                             LegacyNotifiedToday(old(storedNotificationTime), now, dayOf))
      ensures checked ==> old(storedNotificationTime) > 0
      ensures shown ==> checked && fetched.Some? && fetched.value > currentVersionCode && storedNotificationTime == now
      ensures checked && fetched.Some? && fetched.value > currentVersionCode ==> shown
      ensures !checked ==> !shown && versionCheckResult == old(versionCheckResult)
                           && callbacksRun == old(callbacksRun)
      ensures checked ==> versionCheckResult == fetched && callbacksRun == old(callbacksRun) + 1
      ensures dialogsShown == old(dialogsShown) + (if shown then 1 else 0)
      ensures !shown ==> storedNotificationTime == old(storedNotificationTime)
    {
      checked := LegacyStartupGate(NeedAutoCheckUpdates(), versionCheckResult.Some?,
                                   LegacyNotifiedToday(storedNotificationTime, now, dayOf));
      shown := false;
      if checked {
        CheckUpdate(false, fetched);
        if CheckerHasUpdate() {
          shown := ShowUpdateDialogIfNeeded(false, now, dayOf);
        }
      }
    }
  }
}
