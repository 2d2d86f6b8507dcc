/**
 * Restrictions the web front end applies when it runs on the public server:
 * the Generate button's overload guard, the settings fields shown disabled,
 * and the values forced into the generation settings.
 */
module PublicLimits {
  import opened Wrappers

  /** `QUEUE_LIMIT`: the queue length at which new generations are refused. */
  const QueueLimit: nat := 2

  /** Whether the Generate button is drawn disabled. */
  function GenerateButtonDisabled(public: bool, queueLength: nat): (disabled: bool)
    ensures !public ==> !disabled
    ensures public ==> (disabled <==> queueLength >= QueueLimit)
  {
    public && queueLength >= QueueLimit
  }

  /** The fields a public server does not let users change. */
  const DisabledFields: seq<string> := ["resize_factor", "dissolve"]

  function IsDisabledOnPublic(public: bool, rawFieldName: string): (disabled: bool)
    ensures disabled <==> public && (rawFieldName == "resize_factor" || rawFieldName == "dissolve")
  {
    public && rawFieldName in DisabledFields
  }

  /** A settings value as it appears in the settings JSON. */
  datatype Value = Int(i: int) | Bool(b: bool) | Other(json: string)

  /** One settings category, field name to value. */
  type Category = map<string, Value>

  /** The settings JSON: category name (e.g. `BackgroundSettings`) to category. */
  type Settings = map<string, Category>

  const Background := "BackgroundSettings"
  const Texture := "TextureSettings"
  const ResizeFactor := "resize_factor"
  const Dissolve := "dissolve"

  /** `repr` of the `KeyError` raised for a missing category. */
  function KeyErrorRepr(key: string): string
  {
    "KeyError('" + key + "')"
  }

  /** `limit_on_public`: identity off the public server; on it, forces
      `BackgroundSettings.resize_factor = 8` and `TextureSettings.dissolve = False`.
      A missing category raises `KeyError` (background is looked up first). */
  function LimitOnPublic(public: bool, settings: Settings): (r: Result<Settings, string>)
    ensures !public ==> r == Success(settings)
    ensures public ==> (r.Success? <==> Background in settings && Texture in settings)
    ensures public && Background !in settings ==> r == Failure(KeyErrorRepr(Background))
    ensures public && Background in settings && Texture !in settings ==> r == Failure(KeyErrorRepr(Texture))
    ensures public && r.Success? ==>
      && r.value.Keys == settings.Keys
      && r.value[Background].Keys == settings[Background].Keys + {ResizeFactor}
      && r.value[Texture].Keys == settings[Texture].Keys + {Dissolve}
      && r.value[Background][ResizeFactor] == Int(8)
      && r.value[Texture][Dissolve] == Bool(false)
      && (forall f :: f in settings[Background] && f != ResizeFactor ==> r.value[Background][f] == settings[Background][f])
      && (forall f :: f in settings[Texture] && f != Dissolve ==> r.value[Texture][f] == settings[Texture][f])
      && (forall c :: c in settings && c != Background && c != Texture ==> r.value[c] == settings[c])
  {
    if !public then Success(settings)
    else if Background !in settings then Failure(KeyErrorRepr(Background))
    else
      var limited := settings[Background := settings[Background][ResizeFactor := Int(8)]];
      if Texture !in limited then Failure(KeyErrorRepr(Texture))
      else Success(limited[Texture := limited[Texture][Dissolve := Bool(false)]])
  }

  /** Applying the public limits twice changes nothing more: the result is
      already limited. */
  lemma LimitOnPublicIdempotent(public: bool, settings: Settings)
    requires LimitOnPublic(public, settings).Success?
    ensures LimitOnPublic(public, LimitOnPublic(public, settings).value) == LimitOnPublic(public, settings)
  {
    if public {
      var once := LimitOnPublic(public, settings).value;
      var twice := LimitOnPublic(public, once).value;
      assert twice.Keys == once.Keys;
      forall c | c in once ensures twice[c] == once[c] {
        if c == Background || c == Texture {
          assert twice[c].Keys == once[c].Keys;
          forall f | f in once[c] ensures twice[c][f] == once[c][f] {
          }
        }
      }
      assert twice == once;
    }
  }

  /** The public limits change only fields that the form shows as disabled
      on the public server. */
  lemma LimitTouchesOnlyDisabledFields(settings: Settings)
    requires LimitOnPublic(true, settings).Success?
    ensures var limited := LimitOnPublic(true, settings).value;
      forall c, f ::
        (c in settings && f in limited[c] && (f !in settings[c] || limited[c][f] != settings[c][f]))
        ==> IsDisabledOnPublic(true, f)
  {
  }
}
