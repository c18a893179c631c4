/**
 * BaseModel: an object identified by an id, carrying a creation and an update
 * time and any number of further attributes, restorable from and serialisable
 * to a string-keyed dictionary.
 *
 * The instance dictionary `__dict__` is the map `attrs`.  The uuid and the
 * clock are parameters; the storage engine is a log of the calls it receives.
 */
module BaseModels {
  import opened Wrappers
  import opened DateTimes
  import opened Values

  /** `self.__class__.__name__` for the base class. */
  const BaseModelName: string := "BaseModel"

  /** The key to_dict adds to name the class. */
  const ClassKey: string := "__class__"

  predicate IsTimeKey(key: string) {
    key == "created_at" || key == "updated_at"
  }

  /** The attributes `__init__` assigns before it looks at its keyword arguments. */
  function Defaults(id: string, now: DateTime): (attrs: map<string, Value>)
    ensures attrs.Keys == {"id", "created_at", "updated_at"}
    ensures attrs["id"] == VStr(id)
    ensures attrs["created_at"] == attrs["updated_at"] == VTime(now)
  {
    map["id" := VStr(id), "created_at" := VTime(now), "updated_at" := VTime(now)]
  }

  /** What every BaseModel holds once constructed: a string id and two datetimes. */
  predicate WellFormed(attrs: map<string, Value>) {
    && "id" in attrs && attrs["id"].VStr?
    && "created_at" in attrs && attrs["created_at"].VTime?
    && "updated_at" in attrs && attrs["updated_at"].VTime?
  }

  // ---------------------------------------------------------------------------
  // Restoration from keyword arguments
  // ---------------------------------------------------------------------------

  /** What the restoration loop stores for one keyword argument, or the exception it raises. */
  function Restore(key: string, value: Value): (r: Result<Value>)
    ensures r.Err? ==> IsTimeKey(key)
    ensures r.Err? ==> (r.error == TypeError <==> !value.VStr?)
    ensures IsTimeKey(key) ==> (r.Err? <==> !value.VStr? || ParseTime(value.s).Err?)
    ensures r.Err? && value.VStr? ==> r.error == ValueError
  {
    if IsTimeKey(key) then
      match value
      case VStr(s) =>
        (match ParseTime(s)
         case Ok(t) => Ok(VTime(t))
         case Err(e) => Err(e))
      case _ => Err(TypeError)
    else if key == "id" then Ok(VStr(ToStr(value)))
    else Ok(value)
  }

  /** The restoration loop raises nothing. */
  predicate Restorable(kwargs: map<string, Value>) {
    forall key :: key in kwargs ==> Restore(key, kwargs[key]).Ok?
  }

  /** The instance dictionary after the restoration loop has run over all of `kwargs`. */
  function Restored(defaults: map<string, Value>, kwargs: map<string, Value>): map<string, Value>
    requires Restorable(kwargs)
  {
    defaults + map key | key in kwargs :: Restore(key, kwargs[key]).value
  }

  /**
   * After restoration the object has the default keys and the argument keys;
   * a default survives only where no argument overrides it; `id` holds the
   * str() of its argument, the two timestamps the datetimes strptime reads
   * from theirs, and every other key (`__class__` included) its argument
   * unchanged.
   */
  lemma RestoredContents(defaults: map<string, Value>, kwargs: map<string, Value>)
    requires Restorable(kwargs)
    ensures Restored(defaults, kwargs).Keys == defaults.Keys + kwargs.Keys
    ensures forall key :: key in defaults && key !in kwargs ==> Restored(defaults, kwargs)[key] == defaults[key]
    ensures forall key :: key in kwargs && !IsTimeKey(key) && key != "id" ==> Restored(defaults, kwargs)[key] == kwargs[key]
    ensures "id" in kwargs ==> Restored(defaults, kwargs)["id"] == VStr(ToStr(kwargs["id"]))
    ensures forall key :: key in kwargs && IsTimeKey(key) ==>
              && kwargs[key].VStr? && ParseTime(kwargs[key].s).Ok?
              && Restored(defaults, kwargs)[key] == VTime(ParseTime(kwargs[key].s).value)
  {
  }

  /** The instance dictionary the restoration loop builds, key by key. */
  lemma RestoredByKeys(defaults: map<string, Value>, kwargs: map<string, Value>, attrs: map<string, Value>)
    requires Restorable(kwargs)
    requires attrs.Keys == defaults.Keys + kwargs.Keys
    requires forall key :: key in defaults && key !in kwargs ==> attrs[key] == defaults[key]
    requires forall key :: key in kwargs ==> attrs[key] == Restore(key, kwargs[key]).value
    ensures Restored(defaults, kwargs) == attrs
  {
    var m := defaults + map key | key in kwargs :: Restore(key, kwargs[key]).value;
    assert m == attrs;
  }

  /** One more turn of the restoration loop. */
  lemma RestoredStep(defaults: map<string, Value>, done: map<string, Value>, key: string, value: Value)
    requires Restorable(done) && Restore(key, value).Ok?
    ensures Restorable(done[key := value])
    ensures Restored(defaults, done[key := value]) == Restored(defaults, done)[key := Restore(key, value).value]
  {
    var next := done[key := value];
    assert Restorable(next) by {
      forall k | k in next ensures Restore(k, next[k]).Ok? {
        if k != key { assert next[k] == done[k]; }
      }
    }
    var right := Restored(defaults, done)[key := Restore(key, value).value];
    forall k | k in next ensures right[k] == Restore(k, next[k]).value {
      if k != key { assert next[k] == done[k]; }
    }
    RestoredByKeys(defaults, next, right);
  }

  /** Restoration raises exactly when a timestamp argument is not a str that strptime accepts. */
  lemma RestorableIff(kwargs: map<string, Value>)
    ensures Restorable(kwargs) <==>
      forall key :: key in kwargs && IsTimeKey(key) ==> kwargs[key].VStr? && ParseTime(kwargs[key].s).Ok?
  {
    if !Restorable(kwargs) {
      var key :| key in kwargs && Restore(key, kwargs[key]).Err?;
      assert IsTimeKey(key);
    }
  }

  /** A restored object is well formed, whichever of the three keys the arguments supply. */
  lemma RestoredWellFormed(defaults: map<string, Value>, kwargs: map<string, Value>)
    requires WellFormed(defaults) && Restorable(kwargs)
    ensures WellFormed(Restored(defaults, kwargs))
  {
  }

  // ---------------------------------------------------------------------------
  // Serialisation
  // ---------------------------------------------------------------------------

  /** What to_dict stores for one attribute, or the exception it raises. */
  function Render(key: string, value: Value): (r: Result<Value>)
    ensures r.Err? <==> IsTimeKey(key) && !value.VTime?
    ensures r.Err? ==> r.error == AttributeError
  {
    if IsTimeKey(key) then
      match value
      case VTime(t) => Ok(VStr(IsoFormat(t, 'T')))
      case _ => Err(AttributeError)
    else Ok(value)
  }

  /** `to_dict()` of an object of class `className` whose instance dictionary is `attrs`. */
  function Serialize(attrs: map<string, Value>, className: string): Result<map<string, Value>> {
    if forall key :: key in attrs ==> Render(key, attrs[key]).Ok? then
      Ok(map key | key in attrs.Keys + {ClassKey} ::
           if key == ClassKey then VStr(className) else Render(key, attrs[key]).value)
    else
      Err(AttributeError)
  }

  /** `d` is the dictionary to_dict builds for `attrs`, key by key. */
  predicate IsDictForm(attrs: map<string, Value>, className: string, d: map<string, Value>) {
    && d.Keys == attrs.Keys + {ClassKey}
    && d[ClassKey] == VStr(className)
    && forall key :: key in attrs && key != ClassKey ==> Render(key, attrs[key]) == Ok(d[key])
  }

  /** to_dict raises AttributeError exactly when a timestamp attribute is not a datetime. */
  lemma SerializeFails(attrs: map<string, Value>, className: string)
    ensures Serialize(attrs, className).Ok? <==> forall key :: key in attrs && IsTimeKey(key) ==> attrs[key].VTime?
    ensures Serialize(attrs, className).Err? ==> Serialize(attrs, className).error == AttributeError
  {
    if !Serialize(attrs, className).Ok? {
      var key :| key in attrs && Render(key, attrs[key]).Err?;
      assert IsTimeKey(key) && !attrs[key].VTime?;
    }
  }

  /** When to_dict returns, it returns the key-by-key dictionary form, and no other. */
  lemma SerializeIsDictForm(attrs: map<string, Value>, className: string, d: map<string, Value>)
    ensures Serialize(attrs, className) == Ok(d) <==> IsDictForm(attrs, className, d)
  {
    if IsDictForm(attrs, className, d) {
      assert forall key :: key in attrs ==> Render(key, attrs[key]).Ok?;
      var m := map key | key in attrs.Keys + {ClassKey} ::
                 if key == ClassKey then VStr(className) else Render(key, attrs[key]).value;
      assert m == d;
    }
  }

  /**
   * The dictionary form has the object's keys plus `__class__`, which always
   * holds the class name; the timestamps become their ISO text and every
   * other attribute is copied unchanged.
   */
  lemma DictFormContents(attrs: map<string, Value>, className: string, d: map<string, Value>)
    requires IsDictForm(attrs, className, d)
    ensures d.Keys == attrs.Keys + {ClassKey}
    ensures d[ClassKey] == VStr(className)
    ensures forall key :: key in attrs && IsTimeKey(key) ==>
              attrs[key].VTime? && d[key] == VStr(IsoFormat(attrs[key].time, 'T'))
    ensures forall key :: key in attrs && !IsTimeKey(key) && key != ClassKey ==> d[key] == attrs[key]
  {
    forall key | key in attrs && IsTimeKey(key)
      ensures attrs[key].VTime? && d[key] == VStr(IsoFormat(attrs[key].time, 'T'))
    {
      assert Render(key, attrs[key]) == Ok(d[key]);
    }
  }

  /** A `__class__` attribute on the object does not show in its dictionary form. */
  lemma SerializeIgnoresClassAttribute(attrs: map<string, Value>, className: string, v: Value)
    ensures Serialize(attrs[ClassKey := v], className) == Serialize(attrs, className)
  {
    var a := attrs[ClassKey := v];
    SerializeFails(attrs, className);
    SerializeFails(a, className);
    if Serialize(attrs, className).Ok? {
      var d := Serialize(attrs, className).value;
      SerializeIsDictForm(attrs, className, d);
      DictFormIgnoresClassAttribute(attrs, className, d, v);
      SerializeIsDictForm(a, className, d);
    }
  }

  lemma DictFormIgnoresClassAttribute(attrs: map<string, Value>, className: string, d: map<string, Value>, v: Value)
    requires IsDictForm(attrs, className, d)
    ensures IsDictForm(attrs[ClassKey := v], className, d)
  {
  }

  /** A timestamp whose microsecond is zero. */
  predicate HasWholeSecond(attrs: map<string, Value>, key: string)
    requires WellFormed(attrs) && IsTimeKey(key)
  {
    attrs[key].time.microsecond == 0
  }

  /** A timestamp key of the dictionary form restores to the datetime it came from. */
  lemma RestoreDictFormTime(attrs: map<string, Value>, className: string, d: map<string, Value>, key: string)
    requires WellFormed(attrs) && IsTimeKey(key) && !HasWholeSecond(attrs, key)
    requires IsDictForm(attrs, className, d)
    ensures Restore(key, d[key]) == Ok(attrs[key])
  {
    var t := attrs[key].time;
    assert Render(key, attrs[key]) == Ok(d[key]);
    ParseIsoFormat(t);
  }

  /** Every other key of the dictionary form restores to what it holds. */
  lemma RestoreDictFormOther(attrs: map<string, Value>, className: string, d: map<string, Value>, key: string)
    requires WellFormed(attrs) && key in d && !IsTimeKey(key)
    requires IsDictForm(attrs, className, d)
    ensures Restore(key, d[key]) == Ok(attrs[ClassKey := VStr(className)][key])
  {
    if key != ClassKey {
      assert Render(key, attrs[key]) == Ok(d[key]);
    }
  }

  /** One key of the dictionary form restores to the attribute it came from. */
  lemma RestoreDictFormAt(attrs: map<string, Value>, className: string, d: map<string, Value>, key: string)
    requires WellFormed(attrs)
    requires !HasWholeSecond(attrs, "created_at") && !HasWholeSecond(attrs, "updated_at")
    requires IsDictForm(attrs, className, d) && key in d
    ensures Restore(key, d[key]) == Ok(attrs[ClassKey := VStr(className)][key])
  {
    if IsTimeKey(key) {
      RestoreDictFormTime(attrs, className, d, key);
    } else {
      RestoreDictFormOther(attrs, className, d, key);
    }
  }

  /**
   * Restoring from the dictionary form of a well-formed object whose two
   * timestamps have a nonzero microsecond gives back its attributes, with
   * the class name stored under `__class__`.
   */
  lemma {:induction false} RestoreDictForm(attrs: map<string, Value>, className: string, d: map<string, Value>,
                                           defaults: map<string, Value>)
    requires WellFormed(attrs) && defaults.Keys <= attrs.Keys
    requires !HasWholeSecond(attrs, "created_at") && !HasWholeSecond(attrs, "updated_at")
    requires IsDictForm(attrs, className, d)
    ensures Restorable(d)
    ensures Restored(defaults, d) == attrs[ClassKey := VStr(className)]
  {
    var back := attrs[ClassKey := VStr(className)];
    forall key | key in d
      ensures Restore(key, d[key]) == Ok(back[key])
    {
      RestoreDictFormAt(attrs, className, d, key);
    }
    RestoredByKeys(defaults, d, back);
  }

  /**
   * The round trip of the dictionary form: to_dict of the object restored
   * from to_dict(e) is to_dict(e).
   */
  lemma {:induction false} SerialRoundTrip(attrs: map<string, Value>, className: string, id: string, now: DateTime)
    requires WellFormed(attrs)
    requires !HasWholeSecond(attrs, "created_at") && !HasWholeSecond(attrs, "updated_at")
    ensures Serialize(attrs, className).Ok?
    ensures var d := Serialize(attrs, className).value;
            Restorable(d) && Serialize(Restored(Defaults(id, now), d), className) == Ok(d)
  {
    SerializeFails(attrs, className);
    var d := Serialize(attrs, className).value;
    SerializeIsDictForm(attrs, className, d);
    DictFormRoundTrip(attrs, className, d, Defaults(id, now));
  }

  /** The round trip, stated on the dictionary form. */
  lemma DictFormRoundTrip(attrs: map<string, Value>, className: string, d: map<string, Value>,
                          defaults: map<string, Value>)
    requires WellFormed(attrs) && defaults.Keys <= attrs.Keys
    requires !HasWholeSecond(attrs, "created_at") && !HasWholeSecond(attrs, "updated_at")
    requires IsDictForm(attrs, className, d)
    ensures Restorable(d) && Serialize(Restored(defaults, d), className) == Ok(d)
  {
    RestoreDictForm(attrs, className, d, defaults);
    var back := Restored(defaults, d);
    DictFormIgnoresClassAttribute(attrs, className, d, VStr(className));
    assert IsDictForm(back, className, d);
    SerializeIsDictForm(back, className, d);
  }

  /** A whole-second timestamp in the dictionary form does not parse back. */
  lemma WholeSecondDictForm(attrs: map<string, Value>, className: string, d: map<string, Value>, key: string)
    requires WellFormed(attrs) && IsTimeKey(key) && HasWholeSecond(attrs, key)
    requires IsDictForm(attrs, className, d)
    ensures Restore(key, d[key]) == Err(ValueError)
  {
    assert Render(key, attrs[key]) == Ok(d[key]);
    ParseIsoFormat(attrs[key].time);
  }

  /** With a zero microsecond in either timestamp, restoring from the dictionary form raises ValueError. */
  lemma {:induction false} WholeSecondBreaksRestore(attrs: map<string, Value>, className: string, key: string)
    requires WellFormed(attrs) && IsTimeKey(key) && HasWholeSecond(attrs, key)
    ensures Serialize(attrs, className).Ok?
    ensures var d := Serialize(attrs, className).value;
            !Restorable(d) && Restore(key, d[key]) == Err(ValueError)
  {
    SerializeFails(attrs, className);
    var d := Serialize(attrs, className).value;
    SerializeIsDictForm(attrs, className, d);
    WholeSecondDictForm(attrs, className, d, key);
  }

  // ---------------------------------------------------------------------------
  // Storage and the object
  // ---------------------------------------------------------------------------

  /** A call the storage engine receives. */
  datatype StorageCall = New(obj: BaseModel) | Save

  /** The storage engine, reduced to the calls it receives. */
  class Storage {
    ghost var calls: seq<StorageCall>

    constructor ()
      ensures calls == []
    {
      calls := [];
    }

    /** `storage.new(obj)`: register a new object. */
    method New(obj: BaseModel)
      modifies this
      ensures calls == old(calls) + [StorageCall.New(obj)]
    {
      calls := calls + [StorageCall.New(obj)];
    }

    /** `storage.save()`: persist every registered object. */
    method Save()
      modifies this
      ensures calls == old(calls) + [StorageCall.Save]
    {
      calls := calls + [StorageCall.Save];
    }
  }

  class BaseModel {
    const className: string := BaseModelName
    var attrs: map<string, Value>

    ghost predicate Valid()
      reads this
    {
      WellFormed(attrs)
    }

    /** The default assignments at the start of `__init__`. */
    constructor (id: string, now: DateTime)
      ensures Valid()
      ensures attrs == Defaults(id, now)
    {
      new;
      attrs := map["id" := VStr(id)];
      attrs := attrs["created_at" := VTime(now)];
      attrs := attrs["updated_at" := attrs["created_at"]];
    }

    /**
     * `BaseModel(**kwargs)`, with `id` standing for `str(uuid4())` and `now`
     * for `datetime.today()`.  Raises (returns Err, no object) when a
     * timestamp argument cannot be parsed; registers the object with the
     * storage engine only when there are no arguments.
     */
    static method Create(kwargs: map<string, Value>, id: string, now: DateTime, storage: Storage)
      returns (r: Result<BaseModel>)
      modifies storage
      ensures r.Ok? <==> Restorable(kwargs)
      ensures r.Ok? ==> fresh(r.value) && r.value.Valid()
      ensures r.Ok? ==> r.value.attrs == Restored(Defaults(id, now), kwargs)
      ensures r.Err? ==> exists key :: key in kwargs && Restore(key, kwargs[key]) == Err(r.error)
      ensures |kwargs| == 0 ==> r.Ok? && storage.calls == old(storage.calls) + [StorageCall.New(r.value)]
      ensures |kwargs| != 0 ==> storage.calls == old(storage.calls)
    {
      var m := new BaseModel(id, now);
      if |kwargs| != 0 {
        var failure := m.RestoreFrom(kwargs);
        if failure.Some? {
          return Err(failure.value);
        }
      } else {
        storage.New(m);
        assert kwargs == map[];
        RestoredByKeys(Defaults(id, now), kwargs, m.attrs);
      }
      RestoredWellFormed(Defaults(id, now), kwargs);
      r := Ok(m);
    }

    /** The loop of `__init__` that overwrites the defaults with the keyword arguments. */
    method RestoreFrom(kwargs: map<string, Value>) returns (failure: Option<Exception>)
      modifies this
      ensures failure.None? <==> Restorable(kwargs)
      ensures failure.None? ==> attrs == Restored(old(attrs), kwargs)
      ensures failure.Some? ==> exists key :: key in kwargs && Restore(key, kwargs[key]) == Err(failure.value)
    {
      ghost var defaults := attrs;
      var todo := kwargs.Keys;
      ghost var done: map<string, Value> := map[];
      while todo != {}
        invariant todo <= kwargs.Keys
        invariant done.Keys == kwargs.Keys - todo
        invariant forall key :: key in done ==> done[key] == kwargs[key]
        invariant Restorable(done) && attrs == Restored(defaults, done)
        decreases todo
      {
        var key :| key in todo;
        var stored := Restore(key, kwargs[key]);
        if stored.Err? {
          return Some(stored.error);
        }
        attrs := attrs[key := stored.value];
        RestoredStep(defaults, done, key, kwargs[key]);
        done := done[key := kwargs[key]];
        todo := todo - {key};
      }
      assert done == kwargs;
      failure := None;
    }

    /** `save()`: stamp `updated_at` with the current time, then ask storage to persist. */
    method Save(now: DateTime, storage: Storage)
      modifies this, storage
      ensures old(Valid()) ==> Valid()
      ensures attrs == old(attrs)["updated_at" := VTime(now)]
      ensures storage.calls == old(storage.calls) + [StorageCall.Save]
    {
      attrs := attrs["updated_at" := VTime(now)];
      storage.Save();
    }

    /**
     * `to_dict()`: a fresh dictionary, or the AttributeError of a timestamp
     * attribute that is not a datetime; the object is not changed.
     */
    method ToDict() returns (r: Result<map<string, Value>>)
      ensures r == Serialize(attrs, className)
    {
      var d := map[];
      var todo := attrs.Keys;
      while todo != {}
        invariant todo <= attrs.Keys
        invariant d.Keys == attrs.Keys - todo
        invariant forall key :: key in d ==> Render(key, attrs[key]) == Ok(d[key])
        decreases todo
      {
        var key :| key in todo;
        var value := attrs[key];
        if key == "created_at" || key == "updated_at" {
          if !value.VTime? {
            assert Render(key, attrs[key]).Err?;
            return Err(AttributeError);
          }
          value := VStr(IsoFormat(value.time, 'T'));
        }
        assert Render(key, attrs[key]) == Ok(value);
        d := d[key := value];
        todo := todo - {key};
      }
      d := d[ClassKey := VStr(className)];
      assert IsDictForm(attrs, className, d);
      SerializeIsDictForm(attrs, className, d);
      r := Ok(d);
    }
  }

  /**
   * Reloading an object from its dictionary form, as a caller restoring from
   * to_dict would, gives an object with the same dictionary form, and
   * registers nothing.
   */
  method Reload(m: BaseModel, id: string, now: DateTime, storage: Storage) returns (copy: BaseModel)
    requires m.Valid()
    requires !HasWholeSecond(m.attrs, "created_at") && !HasWholeSecond(m.attrs, "updated_at")
    modifies storage
    ensures fresh(copy) && copy.Valid()
    ensures Serialize(copy.attrs, copy.className) == Serialize(m.attrs, m.className)
    ensures storage.calls == old(storage.calls)
  {
    var dict := m.ToDict();
    SerialRoundTrip(m.attrs, m.className, id, now);
    var d := dict.value;
    assert ClassKey in d;
    var r := BaseModel.Create(d, id, now, storage);
    copy := r.value;
  }
}
