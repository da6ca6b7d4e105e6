/** `NotificationSettings`: email and push switches and a digest frequency,
    each changed by a handler that copies the record with one field
    replaced, and a save button that is disabled while a save is running. */
module NotificationSettings {

  datatype EmailKey = Marketing | Security | Updates | Digest
  datatype PushKey = Comments | Mentions | Followers | Messages
  datatype Frequency = Immediate | Daily | Weekly | Never

  datatype EmailPrefs = EmailPrefs(marketing: bool, security: bool, updates: bool, digest: bool)
  datatype PushPrefs = PushPrefs(comments: bool, mentions: bool, followers: bool, messages: bool)
  datatype Settings = Settings(email: EmailPrefs, push: PushPrefs, frequency: Frequency)

  /** `email[key]` */
  function Email(e: EmailPrefs, key: EmailKey): bool {
    match key
    case Marketing => e.marketing
    case Security => e.security
    case Updates => e.updates
    case Digest => e.digest
  }

  /** `push[key]` */
  function Push(p: PushPrefs, key: PushKey): bool {
    match key
    case Comments => p.comments
    case Mentions => p.mentions
    case Followers => p.followers
    case Messages => p.messages
  }

  /** Two email records are equal when they agree on every key. */
  lemma EmailExtensional(a: EmailPrefs, b: EmailPrefs)
    requires forall k :: Email(a, k) == Email(b, k)
    ensures a == b
  {
    assert Email(a, Marketing) == Email(b, Marketing);
    assert Email(a, Security) == Email(b, Security);
    assert Email(a, Updates) == Email(b, Updates);
    assert Email(a, Digest) == Email(b, Digest);
  }

  /** Two push records are equal when they agree on every key. */
  lemma PushExtensional(a: PushPrefs, b: PushPrefs)
    requires forall k :: Push(a, k) == Push(b, k)
    ensures a == b
  {
    assert Push(a, Comments) == Push(b, Comments);
    assert Push(a, Mentions) == Push(b, Mentions);
    assert Push(a, Followers) == Push(b, Followers);
    assert Push(a, Messages) == Push(b, Messages);
  }

  /** The state the page starts in. */
  const Initial := Settings(EmailPrefs(true, true, false, true), PushPrefs(true, true, false, true), Daily)

  /** Only "updates" and "followers" start off; the digest is daily. */
  lemma InitialSwitches()
    ensures forall k :: Email(Initial.email, k) <==> k != Updates
    ensures forall k :: Push(Initial.push, k) <==> k != Followers
    ensures Initial.frequency == Daily
  {
  }

  /** `updateEmailSetting(key, value)` */
  function UpdateEmailSetting(s: Settings, key: EmailKey, value: bool): (r: Settings)
    ensures Email(r.email, key) == value
    ensures forall k :: k != key ==> Email(r.email, k) == Email(s.email, k)
    ensures r.push == s.push && r.frequency == s.frequency
  {
    var e := s.email;
    s.(email := match key
      case Marketing => e.(marketing := value)
      case Security => e.(security := value)
      case Updates => e.(updates := value)
      case Digest => e.(digest := value))
  }

  /** `updatePushSetting(key, value)` */
  function UpdatePushSetting(s: Settings, key: PushKey, value: bool): (r: Settings)
    ensures Push(r.push, key) == value
    ensures forall k :: k != key ==> Push(r.push, k) == Push(s.push, k)
    ensures r.email == s.email && r.frequency == s.frequency
  {
    var p := s.push;
    s.(push := match key
      case Comments => p.(comments := value)
      case Mentions => p.(mentions := value)
      case Followers => p.(followers := value)
      case Messages => p.(messages := value))
  }

  /** `updateFrequency(frequency)` */
  function UpdateFrequency(s: Settings, frequency: Frequency): (r: Settings)
    ensures r.frequency == frequency
    ensures r.email == s.email && r.push == s.push
  {
    s.(frequency := frequency)
  }

  /** Applying an update twice is the same as applying it once. */
  lemma UpdatesIdempotent(s: Settings, ek: EmailKey, pk: PushKey, v: bool, f: Frequency)
    ensures UpdateEmailSetting(UpdateEmailSetting(s, ek, v), ek, v) == UpdateEmailSetting(s, ek, v)
    ensures UpdatePushSetting(UpdatePushSetting(s, pk, v), pk, v) == UpdatePushSetting(s, pk, v)
    ensures UpdateFrequency(UpdateFrequency(s, f), f) == UpdateFrequency(s, f)
  {
    EmailExtensional(UpdateEmailSetting(UpdateEmailSetting(s, ek, v), ek, v).email, UpdateEmailSetting(s, ek, v).email);
    PushExtensional(UpdatePushSetting(UpdatePushSetting(s, pk, v), pk, v).push, UpdatePushSetting(s, pk, v).push);
  }

  /** Setting a switch to the value it already has changes nothing. */
  lemma UpdateToCurrentValueNoOp(s: Settings, ek: EmailKey, pk: PushKey)
    ensures UpdateEmailSetting(s, ek, Email(s.email, ek)) == s
    ensures UpdatePushSetting(s, pk, Push(s.push, pk)) == s
  {
    EmailExtensional(UpdateEmailSetting(s, ek, Email(s.email, ek)).email, s.email);
    PushExtensional(UpdatePushSetting(s, pk, Push(s.push, pk)).push, s.push);
  }

  /** Switches on different keys do not interfere: the order of two updates does not matter. */
  lemma EmailUpdatesCommute(s: Settings, a: EmailKey, va: bool, b: EmailKey, vb: bool)
    requires a != b
    ensures UpdateEmailSetting(UpdateEmailSetting(s, a, va), b, vb) == UpdateEmailSetting(UpdateEmailSetting(s, b, vb), a, va)
  {
    EmailExtensional(UpdateEmailSetting(UpdateEmailSetting(s, a, va), b, vb).email,
                     UpdateEmailSetting(UpdateEmailSetting(s, b, vb), a, va).email);
  }

  /** The later of two updates to the same switch wins. */
  lemma LastEmailUpdateWins(s: Settings, key: EmailKey, v1: bool, v2: bool)
    ensures UpdateEmailSetting(UpdateEmailSetting(s, key, v1), key, v2) == UpdateEmailSetting(s, key, v2)
  {
    EmailExtensional(UpdateEmailSetting(UpdateEmailSetting(s, key, v1), key, v2).email,
                     UpdateEmailSetting(s, key, v2).email);
  }

  /** The save button's text. */
  function SaveButtonText(isSubmitting: bool): string {
    if isSubmitting then "Saving..." else "Save preferences"
  }

  class NotificationSettingsForm {
    var settings: Settings
    var isSubmitting: bool

    constructor ()
      ensures settings == Initial && !isSubmitting
    {
      settings := Initial;
      isSubmitting := false;
    }

    method SetEmail(key: EmailKey, value: bool)
      modifies this
      ensures settings == UpdateEmailSetting(old(settings), key, value)
      ensures isSubmitting == old(isSubmitting)
    {
      settings := UpdateEmailSetting(settings, key, value);
    }

    method SetPush(key: PushKey, value: bool)
      modifies this
      ensures settings == UpdatePushSetting(old(settings), key, value)
      ensures isSubmitting == old(isSubmitting)
    {
      settings := UpdatePushSetting(settings, key, value);
    }

    method SetFrequency(frequency: Frequency)
      modifies this
      ensures settings == UpdateFrequency(old(settings), frequency)
      ensures isSubmitting == old(isSubmitting)
    {
      settings := UpdateFrequency(settings, frequency);
    }

    /** The start of `handleSave`: the button is disabled and reads "Saving...". */
    method BeginSave()
      modifies this
      ensures isSubmitting && SaveButtonText(isSubmitting) == "Saving..."
      ensures settings == old(settings)
    {
      isSubmitting := true;
    }

    /** The end of `handleSave`, once the wait is over: the `finally` clears
        the flag whether or not the save failed, and a failure is rethrown. */
    method FinishSave(failed: bool) returns (error: bool)
      modifies this
      ensures !isSubmitting && SaveButtonText(isSubmitting) == "Save preferences"
      ensures error == failed
      ensures settings == old(settings)
    {
      error := failed;
      isSubmitting := false;
    }
  }
}
