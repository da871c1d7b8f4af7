/** The activity's platform services for the browser host: the single
    pending permission request and the grant results delivered for it, and
    voice search (the recognizer, the listening flag and the voice UI
    state). Launching system activities and the recognizer's own work are
    outside the model; what the platform asks of them is logged. */
module Platform {
  import opened Strings

  /** Android's `PackageManager.PERMISSION_GRANTED` and `PERMISSION_DENIED`. */
  const PermissionGranted: int := 0
  const PermissionDenied: int := -1

  datatype PendingPermRequest = PendingPermRequest(requestCode: int, permissions: seq<string>)

  /** The voice overlay's state; Kotlin's `Float` level is a real here. */
  datatype VoiceUiState = VoiceUiState(active: bool, rmsDb: real, partialText: string)

  function IdleVoice(): (v: VoiceUiState)
    ensures !v.active && v.partialText == []
  {
    VoiceUiState(false, 0.0, "")
  }

  /** What is handed to the host. */
  datatype Delivery =
    | PermissionsResult(requestCode: int, permissions: seq<string>, grantResults: seq<int>)
    | VoiceQuery(query: Option<string>)

  /** Activities launched and calls made on the speech recognizer. */
  datatype Launch = RequestPermissionsLaunch(permissions: seq<string>) | VoiceIntentLaunch
  datatype RecognizerCall = CreateRecognizer | StartListening | StopListening | DestroyRecognizer

  /** The result for one permission: granted only when the answer map says
      true for it. */
  function GrantResult(answers: map<string, bool>, perm: string): int {
    if perm in answers && answers[perm] then PermissionGranted else PermissionDenied
  }

  /** The grant results for a request, one per permission, in its order. */
  function GrantResults(permissions: seq<string>, answers: map<string, bool>): (r: seq<int>)
    ensures |r| == |permissions|
    ensures forall i :: 0 <= i < |r| ==> (r[i] == PermissionGranted || r[i] == PermissionDenied)
    ensures forall i :: 0 <= i < |r| ==>
              (r[i] == PermissionGranted <==> permissions[i] in answers && answers[permissions[i]])
  {
    seq(|permissions|, i requires 0 <= i < |permissions| => GrantResult(answers, permissions[i]))
  }

  /** A permission asked for twice gets the same result both times. */
  lemma {:induction false} SamePermissionSameResult(permissions: seq<string>, answers: map<string, bool>, i: int, j: int)
    requires 0 <= i < |permissions| && 0 <= j < |permissions| && permissions[i] == permissions[j]
    ensures GrantResults(permissions, answers)[i] == GrantResults(permissions, answers)[j]
  {
    var r := GrantResults(permissions, answers);
    assert r[i] == GrantResult(answers, permissions[i]);
    assert r[j] == GrantResult(answers, permissions[j]);
  }

  /** The results for a request made of two parts are the results of the
      parts, one after the other. */
  lemma GrantResultsAppend(p: seq<string>, q: seq<string>, answers: map<string, bool>)
    ensures GrantResults(p + q, answers) == GrantResults(p, answers) + GrantResults(q, answers)
  {
    var l, r := GrantResults(p + q, answers), GrantResults(p, answers) + GrantResults(q, answers);
    forall k | 0 <= k < |l|
      ensures l[k] == r[k]
    {
      if k < |p| {
        assert (p + q)[k] == p[k];
      } else {
        assert (p + q)[k] == q[k - |p|];
      }
    }
  }

  /** Fills the `IntArray` of grant results by index. */
  method FillGrantResults(permissions: seq<string>, answers: map<string, bool>) returns (g: array<int>)
    ensures fresh(g)
    ensures g[..] == GrantResults(permissions, answers)
  {
    g := new int[|permissions|];
    for i := 0 to |permissions|
      invariant forall k :: 0 <= k < i ==> g[k] == GrantResult(answers, permissions[k])
    {
      g[i] := GrantResult(answers, permissions[i]);
    }
  }

  class ActivityBrowserPlatform {
    /** Whether a browser host is attached to receive results. */
    var hostAttached: bool
    var pending: Option<PendingPermRequest>
    /** Whether a speech recognizer has been created and not destroyed. */
    var recognizer: bool
    var listening: bool
    var voice: VoiceUiState
    var deliveries: seq<Delivery>
    var launches: seq<Launch>
    var recognizerCalls: seq<RecognizerCall>

    /** The overlay shows as active exactly while the platform listens. */
    predicate Valid()
      reads this
    {
      voice.active <==> listening
    }

    constructor ()
      ensures Valid()
      ensures !hostAttached && pending == None && !recognizer && !listening && voice == IdleVoice()
      ensures deliveries == [] && launches == [] && recognizerCalls == []
    {
      hostAttached := false;
      pending := None;
      recognizer := false;
      listening := false;
      voice := IdleVoice();
      deliveries := [];
      launches := [];
      recognizerCalls := [];
    }

    method AttachHost()
      modifies this
      ensures hostAttached && pending == old(pending) && recognizer == old(recognizer)
      ensures listening == old(listening) && voice == old(voice) && deliveries == old(deliveries)
      ensures launches == old(launches) && recognizerCalls == old(recognizerCalls)
    {
      hostAttached := true;
    }

    method DetachHost()
      modifies this
      ensures !hostAttached && pending == old(pending) && recognizer == old(recognizer)
      ensures listening == old(listening) && voice == old(voice) && deliveries == old(deliveries)
      ensures launches == old(launches) && recognizerCalls == old(recognizerCalls)
    {
      hostAttached := false;
    }

    /** `requestPermissions`: the request becomes the only pending one,
        replacing any earlier one, and the system dialog is launched. */
    method RequestPermissions(requestCode: int, permissions: seq<string>)
      modifies this
      ensures pending == Some(PendingPermRequest(requestCode, permissions))
      ensures launches == old(launches) + [RequestPermissionsLaunch(permissions)]
      ensures hostAttached == old(hostAttached) && recognizer == old(recognizer) && listening == old(listening)
      ensures voice == old(voice) && deliveries == old(deliveries) && recognizerCalls == old(recognizerCalls)
    {
      pending := Some(PendingPermRequest(requestCode, permissions));
      launches := launches + [RequestPermissionsLaunch(permissions)];
    }

    /** The system's answer to the permission dialog. Without a pending
        request it is ignored. Otherwise the pending request is cleared and
        the host, if attached, receives the request code and permissions of
        that request with one grant result per permission, in order. */
    method OnPermissionsResult(answers: map<string, bool>)
      modifies this
      ensures old(pending).None? ==> pending == None && deliveries == old(deliveries)
      ensures pending == None
      ensures old(pending).Some? && hostAttached ==>
                var p := old(pending).value;
                deliveries == old(deliveries) + [PermissionsResult(p.requestCode, p.permissions, GrantResults(p.permissions, answers))]
      ensures !hostAttached ==> deliveries == old(deliveries)
      ensures hostAttached == old(hostAttached) && recognizer == old(recognizer) && listening == old(listening)
      ensures voice == old(voice) && launches == old(launches) && recognizerCalls == old(recognizerCalls)
    {
      if pending.None? {
        return;
      }
      var p := pending.value;
      pending := None;
      var grantResults := FillGrantResults(p.permissions, answers);
      if hostAttached {
        deliveries := deliveries + [PermissionsResult(p.requestCode, p.permissions, grantResults[..])];
      }
    }

    /** `startVoiceSearch`. When in-app recognition is possible (Android 11
        or later with a recognizer available, `recognitionAvailable`), the
        recognizer is created if there is none, the overlay becomes active
        with no level and no text, and listening starts; otherwise the
        system's voice activity is launched. */
    method StartVoiceSearch(recognitionAvailable: bool)
      requires Valid()
      modifies this
      ensures Valid()
      ensures recognitionAvailable ==> recognizer && listening && voice == VoiceUiState(true, 0.0, "")
      ensures recognitionAvailable ==>
                recognizerCalls == old(recognizerCalls) + (if old(recognizer) then [] else [CreateRecognizer]) + [StartListening]
      ensures recognitionAvailable ==> launches == old(launches)
      ensures !recognitionAvailable ==> launches == old(launches) + [VoiceIntentLaunch]
      ensures !recognitionAvailable ==> recognizer == old(recognizer) && listening == old(listening)
                                        && voice == old(voice) && recognizerCalls == old(recognizerCalls)
      ensures hostAttached == old(hostAttached) && pending == old(pending) && deliveries == old(deliveries)
    {
      if recognitionAvailable {
        if !recognizer {
          recognizer := true;
          recognizerCalls := recognizerCalls + [CreateRecognizer];
        }
        voice := VoiceUiState(true, 0.0, "");
        listening := true;
        recognizerCalls := recognizerCalls + [StartListening];
      } else {
        launches := launches + [VoiceIntentLaunch];
      }
    }

    /** `stopVoiceSearch`: a listening recognizer is told to stop (if it
        still exists) and listening ends; the overlay becomes inactive in
        every case. */
    method StopVoiceSearch()
      modifies this
      ensures Valid()
      ensures !listening && voice == IdleVoice()
      ensures recognizerCalls == old(recognizerCalls) + (if old(listening) && recognizer then [StopListening] else [])
      ensures hostAttached == old(hostAttached) && pending == old(pending) && recognizer == old(recognizer)
      ensures deliveries == old(deliveries) && launches == old(launches)
    {
      if listening {
        if recognizer {
          recognizerCalls := recognizerCalls + [StopListening];
        }
        listening := false;
      }
      voice := IdleVoice();
    }

    /** The recognizer reports a new sound level: only the level changes. */
    method OnRmsChanged(rms: real)
      requires Valid()
      modifies this
      ensures Valid()
      ensures voice == old(voice).(rmsDb := rms)
      ensures hostAttached == old(hostAttached) && pending == old(pending) && recognizer == old(recognizer)
      ensures listening == old(listening) && deliveries == old(deliveries) && launches == old(launches)
      ensures recognizerCalls == old(recognizerCalls)
    {
      voice := voice.(rmsDb := rms);
    }

    /** Partial results: only the text changes, to the first candidate or
        the empty string when there is none. */
    method OnPartialResults(first: Option<string>)
      requires Valid()
      modifies this
      ensures Valid()
      ensures voice == old(voice).(partialText := first.GetOr(""))
      ensures hostAttached == old(hostAttached) && pending == old(pending) && recognizer == old(recognizer)
      ensures listening == old(listening) && deliveries == old(deliveries) && launches == old(launches)
      ensures recognizerCalls == old(recognizerCalls)
    {
      voice := voice.(partialText := first.GetOr(""));
    }

    /** A recognition error stops voice search (the toast is not modelled). */
    method OnError()
      modifies this
      ensures Valid()
      ensures !listening && voice == IdleVoice()
      ensures recognizerCalls == old(recognizerCalls) + (if old(listening) && recognizer then [StopListening] else [])
      ensures hostAttached == old(hostAttached) && pending == old(pending) && recognizer == old(recognizer)
      ensures deliveries == old(deliveries) && launches == old(launches)
    {
      StopVoiceSearch();
    }

    /** Final results stop voice search and hand the first candidate, if
        any, to the host. */
    method OnResults(first: Option<string>)
      modifies this
      ensures Valid()
      ensures !listening && voice == IdleVoice()
      ensures recognizerCalls == old(recognizerCalls) + (if old(listening) && recognizer then [StopListening] else [])
      ensures deliveries == old(deliveries) + (if hostAttached then [VoiceQuery(first)] else [])
      ensures hostAttached == old(hostAttached) && pending == old(pending) && recognizer == old(recognizer)
      ensures launches == old(launches)
    {
      StopVoiceSearch();
      if hostAttached {
        deliveries := deliveries + [VoiceQuery(first)];
      }
    }

    /** The system voice activity's answer: its first candidate, if any,
        goes to the host; nothing else changes. */
    method OnVoiceIntentResult(first: Option<string>)
      modifies this
      ensures deliveries == old(deliveries) + (if hostAttached then [VoiceQuery(first)] else [])
      ensures hostAttached == old(hostAttached) && pending == old(pending) && recognizer == old(recognizer)
      ensures listening == old(listening) && voice == old(voice) && launches == old(launches)
      ensures recognizerCalls == old(recognizerCalls)
    {
      if hostAttached {
        deliveries := deliveries + [VoiceQuery(first)];
      }
    }

    /** `dispose`: the recognizer, if any, is destroyed and dropped. The
        listening flag and the overlay are left as they were. */
    method Dispose()
      modifies this
      ensures !recognizer
      ensures recognizerCalls == old(recognizerCalls) + (if old(recognizer) then [DestroyRecognizer] else [])
      ensures hostAttached == old(hostAttached) && pending == old(pending) && listening == old(listening)
      ensures voice == old(voice) && deliveries == old(deliveries) && launches == old(launches)
    {
      if recognizer {
        recognizerCalls := recognizerCalls + [DestroyRecognizer];
      }
      recognizer := false;
    }
  }

  /** A second request before the answer replaces the first: the answer is
      delivered with the second request's code and permissions. */
  method LaterRequestWins(code1: int, perms1: seq<string>, code2: int, perms2: seq<string>, answers: map<string, bool>)
    returns (delivered: Delivery)
    ensures delivered == PermissionsResult(code2, perms2, GrantResults(perms2, answers))
  {
    var platform := new ActivityBrowserPlatform();
    platform.AttachHost();
    platform.RequestPermissions(code1, perms1);
    platform.RequestPermissions(code2, perms2);
    platform.OnPermissionsResult(answers);
    delivered := platform.deliveries[0];
  }

  /** Only one result is delivered per request: a second answer to the same
      request is ignored. */
  method AnswerDeliveredOnce(code: int, perms: seq<string>, a1: map<string, bool>, a2: map<string, bool>)
    returns (count: nat)
    ensures count == 1
  {
    var platform := new ActivityBrowserPlatform();
    platform.AttachHost();
    platform.RequestPermissions(code, perms);
    platform.OnPermissionsResult(a1);
    platform.OnPermissionsResult(a2);
    count := |platform.deliveries|;
  }
}
