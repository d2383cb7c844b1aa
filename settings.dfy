/** The administrator's settings dialog (src/components/SettingsDialog.tsx):
    four sections of named values, an update that replaces one value, and a
    save that only toggles the dialog's flags. */
module Settings {

  /** A setting's value: a switch, a number or a text. */
  datatype Value = Flag(flag: bool) | Number(number: int) | Text(text: string)

  datatype Section = Notifications | Security | Appearance | System

  /** The settings record: each section maps its keys to values. */
  datatype SettingsData = SettingsData(
    notifications: map<string, Value>,
    security: map<string, Value>,
    appearance: map<string, Value>,
    system: map<string, Value>)

  const DefaultSettings := SettingsData(
    map["email" := Flag(true), "push" := Flag(true), "sms" := Flag(false)],
    map["twoFactor" := Flag(false), "sessionTimeout" := Number(30)],
    map["theme" := Text("light"), "language" := Text("English")],
    map["autoBackup" := Flag(true), "analytics" := Flag(true)])

  function Get(s: SettingsData, c: Section): map<string, Value> {
    match c
    case Notifications => s.notifications
    case Security => s.security
    case Appearance => s.appearance
    case System => s.system
  }

  /** `updateSetting(category, key, value)`: that key of that section now
      holds the value; every other key of the section and every other
      section is as before. */
  function UpdateSetting(s: SettingsData, c: Section, key: string, v: Value): (r: SettingsData)
    ensures key in Get(r, c) && Get(r, c)[key] == v
    ensures forall k :: k != key ==> (k in Get(r, c) <==> k in Get(s, c))
    ensures forall k :: k != key && k in Get(s, c) ==> Get(r, c)[k] == Get(s, c)[k]
    ensures forall d :: d != c ==> Get(r, d) == Get(s, d)
  {
    match c
    case Notifications => s.(notifications := s.notifications[key := v])
    case Security => s.(security := s.security[key := v])
    case Appearance => s.(appearance := s.appearance[key := v])
    case System => s.(system := s.system[key := v])
  }

  /** Reading a section after an update: the updated section is the old one
      with the key set, every other section is the old one. */
  lemma GetAfterUpdate(s: SettingsData, c: Section, key: string, v: Value, d: Section)
    ensures Get(UpdateSetting(s, c, key, v), d) == if d == c then Get(s, c)[key := v] else Get(s, d)
  {
  }

  /** Records that agree on every section are equal. */
  lemma SettingsExtensionality(s: SettingsData, t: SettingsData)
    requires forall c :: Get(s, c) == Get(t, c)
    ensures s == t
  {
    assert Get(s, Notifications) == Get(t, Notifications) && Get(s, Security) == Get(t, Security);
    assert Get(s, Appearance) == Get(t, Appearance) && Get(s, System) == Get(t, System);
  }

  /** Of two updates of the same key the later one wins. */
  lemma LastUpdateWins(s: SettingsData, c: Section, key: string, v: Value, w: Value)
    ensures UpdateSetting(UpdateSetting(s, c, key, v), c, key, w) == UpdateSetting(s, c, key, w)
  {
    var t := UpdateSetting(s, c, key, v);
    var x := UpdateSetting(t, c, key, w);
    var y := UpdateSetting(s, c, key, w);
    forall e ensures Get(x, e) == Get(y, e) {
      GetAfterUpdate(t, c, key, w, e);
      GetAfterUpdate(s, c, key, v, e);
      GetAfterUpdate(s, c, key, w, e);
    }
    SettingsExtensionality(x, y);
  }

  /** Updates of different keys can be applied in either order. */
  lemma UpdatesCommute(s: SettingsData, c: Section, k1: string, v: Value, d: Section, k2: string, w: Value)
    requires c != d || k1 != k2
    ensures UpdateSetting(UpdateSetting(s, c, k1, v), d, k2, w) == UpdateSetting(UpdateSetting(s, d, k2, w), c, k1, v)
  {
    var t1 := UpdateSetting(s, c, k1, v);
    var t2 := UpdateSetting(s, d, k2, w);
    var x := UpdateSetting(t1, d, k2, w);
    var y := UpdateSetting(t2, c, k1, v);
    forall e ensures Get(x, e) == Get(y, e) {
      GetAfterUpdate(s, c, k1, v, e);
      GetAfterUpdate(s, d, k2, w, e);
      GetAfterUpdate(t1, d, k2, w, e);
      GetAfterUpdate(t2, c, k1, v, e);
      GetAfterUpdate(s, c, k1, v, d);
      GetAfterUpdate(s, d, k2, w, c);
    }
    SettingsExtensionality(x, y);
  }

  /** Writing back the value a key already holds changes nothing. */
  lemma UpdateWithSameValue(s: SettingsData, c: Section, key: string)
    requires key in Get(s, c)
    ensures UpdateSetting(s, c, key, Get(s, c)[key]) == s
  {
    var r := UpdateSetting(s, c, key, Get(s, c)[key]);
    forall e ensures Get(r, e) == Get(s, e) {
      GetAfterUpdate(s, c, key, Get(s, c)[key], e);
    }
    SettingsExtensionality(r, s);
  }

  /** The kind of value each key of the record's type holds. */
  predicate SameKind(v: Value, w: Value) {
    v.Flag? == w.Flag? && v.Number? == w.Number? && v.Text? == w.Text?
  }

  /** A section has exactly the keys of the template section, each with a
      value of the same kind. */
  predicate SectionConforms(m: map<string, Value>, template: map<string, Value>) {
    m.Keys == template.Keys && forall k :: k in m ==> SameKind(m[k], template[k])
  }

  /** Every section of the record conforms to the default record's. */
  predicate Conforms(s: SettingsData) {
    forall c :: SectionConforms(Get(s, c), Get(DefaultSettings, c))
  }

  lemma DefaultConforms()
    ensures Conforms(DefaultSettings)
  {
  }

  /** Setting a key of the template to a value of its kind keeps a section conforming. */
  lemma SetKeepsSectionConformance(m: map<string, Value>, template: map<string, Value>, key: string, v: Value)
    requires SectionConforms(m, template)
    requires key in template && SameKind(v, template[key])
    ensures SectionConforms(m[key := v], template)
  {
    assert m[key := v].Keys == m.Keys + {key};
  }

  /** An update of a known key with a value of its kind, as every control of
      the dialog makes, keeps the record conforming. */
  lemma UpdateKeepsConformance(s: SettingsData, c: Section, key: string, v: Value)
    requires Conforms(s)
    requires key in Get(DefaultSettings, c) && SameKind(v, Get(DefaultSettings, c)[key])
    ensures Conforms(UpdateSetting(s, c, key, v))
  {
    var r := UpdateSetting(s, c, key, v);
    forall d
      ensures SectionConforms(Get(r, d), Get(DefaultSettings, d))
    {
      GetAfterUpdate(s, c, key, v, d);
      if d == c {
        SetKeepsSectionConformance(Get(s, c), Get(DefaultSettings, c), key, v);
      }
    }
  }

  /** The session timeout is stored as given: the 5 to 120 range of its
      input is not checked. */
  lemma SessionTimeoutNotClamped(s: SettingsData, minutes: int)
    ensures Get(UpdateSetting(s, Security, "sessionTimeout", Number(minutes)), Security)["sessionTimeout"] == Number(minutes)
  {
  }

  class SettingsDialog {
    var open: bool
    var isSaving: bool
    var settings: SettingsData

    constructor ()
      ensures !open && !isSaving && settings == DefaultSettings
    {
      open := false;
      isSaving := false;
      settings := DefaultSettings;
    }

    method SetOpen(b: bool)
      modifies this`open
      ensures open == b
    {
      open := b;
    }

    /** A control of the dialog calls `updateSetting`. */
    method Update(c: Section, key: string, v: Value)
      modifies this`settings
      ensures settings == UpdateSetting(old(settings), c, key, v)
    {
      settings := UpdateSetting(settings, c, key, v);
    }

    /** `handleSave`: saving is shown for a moment and the dialog closes; the
        settings are neither stored nor changed. */
    method HandleSave()
      modifies this`isSaving, this`open
      ensures !isSaving && !open
    {
      isSaving := true;
      isSaving := false;
      open := false;
    }
  }
}
