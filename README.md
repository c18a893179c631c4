# BaseModel: attribute record, dictionary form and restoration

This Dafny project models `BaseModel`, the base class of every object in the
AirBnB console's model layer (`models/base_model.py`). A BaseModel is an
instance dictionary with an `id` and two timestamps, `created_at` and
`updated_at`, plus any number of further attributes. The class offers these
operations:

- **Construction.** `BaseModel(**kwargs)` first assigns a fresh id and the
  current time. It then overwrites those defaults with the keyword arguments:
  - `created_at` and `updated_at` are parsed with
    `datetime.strptime(value, "%Y-%m-%dT%H:%M:%S.%f")`;
  - `id` is converted with `str()`;
  - any other key is copied as given.

  The storage engine is told about the new object only when there are no
  keyword arguments.
- **`save()`.** Stamps `updated_at` with the current time and asks the storage
  engine to persist.
- **`to_dict()`.** Builds a fresh dictionary:
  - every attribute is copied;
  - the two timestamps become their `isoformat()` text;
  - `__class__` is added last and holds the class name.

The model consists of five modules:

- `Wrappers` (`wrappers.dfy`): `Option`, `Result` and the Python exceptions
  that can be raised (TypeError, ValueError, AttributeError).
- `Digits` (`digits.dfy`): decimal digit strings. It covers zero-padded fields
  and `str()` of an int.
- `DateTimes` (`datetimes.dfy`):
  - a datetime is a record of seven fields, restricted to the ranges that
    Python's `datetime` constructor enforces;
  - `isoformat(sep)`, which omits the fraction when the microsecond is zero;
  - `strptime` for the fixed format. It follows the regular expression that
    CPython builds for it: field widths, the optional space before a one-digit
    day, `t` accepted for `T`, and a fraction of 1–6 digits padded to
    microseconds. It rejects trailing text and out-of-range values such as
    Feb 29 in a non-leap year or second 60.
- `Values` (`values.dfy`): the values an attribute can hold, and `str()` of
  each.
- `BaseModels` (`base_model.dfy`):
  - the pure meaning of each operation: `Restore`/`Restored` for the
    restoration loop, `Render`/`Serialize` for `to_dict`, and `IsDictForm`,
    the key-by-key dictionary form;
  - a `Storage` class that logs the calls it receives (`new`, `save`);
  - the `BaseModel` class, with the instance dictionary as a `map` field. Its
    imperative methods are proved against those functions.

The main result is the round trip of the dictionary form: `to_dict` of an
object restored from `to_dict(e)` is `to_dict(e)` (`SerialRoundTrip`,
`Reload`). It holds only when both timestamps have a nonzero microsecond.
`isoformat()` leaves out `.ffffff` for a whole second, and `%f` then rejects
the text with ValueError (`WholeSecondBreaksRestore`). The class documentation
promises the format `%Y-%m-%dT%H:%M:%S.%f` (models/base_model.py:36), but
`isoformat()` produces it only when the microsecond is nonzero. The model
keeps the code as written, and both cases are proved.

## Model

| member | source | states |
|---|---|---|
| Digits.ZeroPad | models/base_model.py:88 | An isoformat field is exactly `width` decimal digits whose value is the number written. |
| Digits.NatText | models/base_model.py:57 | `str()` of a non-negative int is a non-empty digit string denoting it, with no leading zero. |
| Digits.IntText | models/base_model.py:57 | `str()` of an int starts with `-` exactly when it is negative; the remaining digits denote its absolute value and have no leading zero, which fixes the text uniquely. |
| DateTimes.DigitRun | models/base_model.py:46 | The run of digits at the front of the text is all digits, and is followed by a non-digit or the end. |
| DateTimes.ParseTime | models/base_model.py:55 | strptime on a str returns a datetime within the constructor's ranges, or raises ValueError and nothing else. |
| DateTimes.NumberOfDigits | models/base_model.py:46 | A field of allowed width that is followed by a non-digit is read as the number its digits denote, leaving the rest. |
| DateTimes.ScanClockOfIso | models/base_model.py:88 | The time part of isoformat's text matches `%H:%M:%S.%f` exactly when the microsecond is nonzero, and then yields hour, minute, second and microsecond. |
| DateTimes.ParseIsoFormat | models/base_model.py:88 | strptime of `t.isoformat()` with the model's format gives `t` back when `t.microsecond != 0`, and raises ValueError when it is 0. |
| DateTimes.NotADate | models/base_model.py:55 | strptime refuses the text `not-a-date` with ValueError. |
| DateTimes.IsValid | models/base_model.py:55 | The field ranges the datetime constructor enforces on what strptime matched: year 1–9999, month 1–12, a day within the month (with leap years), hour below 24, minute and second below 60, and microsecond below one million. The `DateTime` subset type holds exactly these records. |
| DateTimes.IsoFormat | models/base_model.py:88 | `isoformat(sep)`: zero-padded date, the separator, then the time. Its meaning is stated by ParseIsoFormat, which says strptime reads it back exactly when the microsecond is nonzero. |
| DateTimes.IsoTime | models/base_model.py:88 | The `HH:MM:SS` part of isoformat followed by the fraction. ScanClockOfIso states what the `%H:%M:%S.%f` match makes of it. |
| DateTimes.IsoFraction | models/base_model.py:88 | `.ffffff` when the microsecond is nonzero, and nothing otherwise. ScanClockOfIso and ParseIsoFormat state the consequence: a whole second does not match `%f`. |
| DateTimes.ScanClock | models/base_model.py:46 | The `%H:%M:%S.%f` part of the regular expression up to the end of the text. ScanClockOfIso states its result on isoformat's time text. |
| DateTimes.Scan | models/base_model.py:46 | The whole regular-expression match of `%Y-%m-%dT%H:%M:%S.%f`, giving the raw field values. ParseIsoFormat states its result on isoformat's text. |
| Values.ToStr | models/base_model.py:57 | `str()` of a value: a str is itself, an int is its decimal text (whose contract is IntText's), booleans and None are their names, a datetime is `isoformat(' ')`, and any other object is the text it prints as. |
| BaseModels.Restore | models/base_model.py:54-59 | One turn of the restoration loop. Only a timestamp key can raise, and it raises exactly when its value is not a str or is a str strptime rejects: TypeError for a non-str, ValueError for a rejected str. RestoredContents and RestorableIff state the rest of its meaning. |
| BaseModels.Restored | models/base_model.py:52-59 | The instance dictionary after the loop has overwritten the defaults with every restored argument. RestoredContents states its contents key by key. |
| BaseModels.Render | models/base_model.py:87-90 | What to_dict stores for one attribute. It raises exactly for a timestamp key whose value is not a datetime, and the exception is AttributeError. |
| BaseModels.Serialize | models/base_model.py:85-94 | to_dict's result, or its AttributeError. SerializeFails, SerializeIsDictForm and DictFormContents state its meaning. |
| BaseModels.DictFormRoundTrip | models/base_model.py:85-94 | Restoring from a dictionary form of a well-formed object with nonzero microseconds succeeds, and to_dict of the result is that same dictionary. |
| BaseModels.Defaults | models/base_model.py:48-50 | Before the keyword arguments are applied, the object has exactly `id`, `created_at` and `updated_at`; the id is the one supplied and both timestamps equal the current time. |
| BaseModels.RestoredContents | models/base_model.py:52-59 | After restoration the keys are the defaults' plus the arguments'. A default survives where no argument overrides it. `id` holds `str()` of its argument, the timestamps hold the parsed datetimes, and every other key, `__class__` included, holds its argument unchanged. |
| BaseModels.RestoredStep | models/base_model.py:53-59 | One turn of the loop (storing one restored argument) extends the restored dictionary by that key and value. |
| BaseModels.RestorableIff | models/base_model.py:54-55 | Restoration raises exactly when some timestamp argument is not a str, or is a str that strptime rejects. |
| BaseModels.RestoredWellFormed | models/base_model.py:48-59 | Whatever arguments are given, a restored object still has a str id and two datetimes. |
| BaseModels.SerializeFails | models/base_model.py:86-88 | to_dict raises exactly when a timestamp attribute is not a datetime, and the exception is AttributeError. |
| BaseModels.SerializeIsDictForm | models/base_model.py:85-94 | to_dict returns `d` exactly when `d` has the object's keys plus `__class__`, holds the class name under `__class__`, and holds each attribute as to_dict renders it. |
| BaseModels.DictFormContents | models/base_model.py:85-92 | The dictionary form has the object's keys plus `__class__`, `__class__` holds the class name, the timestamps become their ISO text with `T`, and every other attribute is copied unchanged. |
| BaseModels.SerializeIgnoresClassAttribute | models/base_model.py:92 | A `__class__` attribute stored on the object, whatever its value, does not change to_dict's result, because the class name is written after the loop. |
| BaseModels.RestoreDictForm | models/base_model.py:52-59 | Restoring from the dictionary form of a well-formed object whose timestamps have a nonzero microsecond raises nothing. It gives back the object's attributes, with the class name under `__class__`. |
| BaseModels.SerialRoundTrip | models/base_model.py:85-94 | For a well-formed object whose timestamps have a nonzero microsecond, to_dict succeeds, restoring from its result succeeds, and to_dict of the restored object is the same dictionary. |
| BaseModels.WholeSecondBreaksRestore | models/base_model.py:88 | When a timestamp has microsecond 0, the ISO text that to_dict writes for it makes restoration raise ValueError. |
| BaseModels.Storage.New | models/base_model.py:61 | `storage.new(obj)` is recorded once, at the end of the log. |
| BaseModels.Storage.Save | models/base_model.py:77 | `storage.save()` is recorded once, at the end of the log. |
| BaseModels.BaseModel.constructor | models/base_model.py:48-50 | The fresh object holds the default attributes: the given id, and `created_at` equal to `updated_at`, both the current time. |
| BaseModels.BaseModel.Create | models/base_model.py:38-61 | Construction succeeds exactly when restoration raises nothing, and then yields a fresh well-formed object whose dictionary is the defaults overwritten by the restored arguments. On failure it raises the exception of some failing argument. `storage.new` is called exactly once when there are no arguments and never otherwise. |
| BaseModels.BaseModel.RestoreFrom | models/base_model.py:52-59 | The loop overwrites the instance dictionary with every restored argument, or stops with the exception of an argument that cannot be restored; it fails exactly when the arguments are not restorable. |
| BaseModels.BaseModel.Save | models/base_model.py:71-77 | Only `updated_at` changes, to the current time; `id`, `created_at` and every other attribute are kept. `storage.save` is called once. |
| BaseModels.BaseModel.ToDict | models/base_model.py:79-94 | The loop's result, including its AttributeError, is to_dict's meaning `Serialize`, and the object is not changed. SerializeIsDictForm and DictFormContents state what that dictionary holds. |
| BaseModels.Reload | models/base_model.py:38-94 | Building an object from another's to_dict, as a caller restoring from to_dict would, gives a fresh well-formed object with the same to_dict, and registers nothing with storage; timestamps need a nonzero microsecond. |

## Left out

- `uuid4()` and `datetime.today()`: both are parameters (`id`, `now`). Nothing is claimed about uniqueness or about clock progression.
- `models.storage`: only the calls it receives are logged, in a ghost sequence. File I/O and any exception raised by `storage.save()` are not modelled.
- `__str__` (models/base_model.py:63-69): its text depends on Python's `dict` repr, which is not part of this model.
- `*args`, subclasses and the reflective `self.__class__.__name__`: the class name is the constant `"BaseModel"`.
- Dictionary order: keys form a map, so the order of `to_dict`'s keys and the order in which the restoration loop visits its arguments are not modelled.
- BaseModels.BaseModel.Create: when several arguments fail, the exception is not identified further. It is that of whichever failing key the loop visits first, and the model says only that it is the exception of some failing key.
- BaseModels.Restore: `str()` of an int is taken to succeed for every int. CPython 3.11 and later (and the 3.7.14, 3.8.14, 3.9.14 and 3.10.7 security releases) raise ValueError when an int has more than 4300 digits, so on those interpreters `id=10**4300` also makes restoration raise, which RestorableIff does not admit.
- BaseModels.BaseModel.Save and BaseModels.BaseModel.ToDict model the method bodies as reached. A keyword argument named `save` or `to_dict` is stored in the instance dictionary and hides the method of that name, so in Python `m.save()` or `m.to_dict()` then calls the stored value (usually a TypeError, since it is not callable); attribute lookup and that shadowing are not modelled.
- `\d` in strptime's regular expression also matches non-ASCII Unicode digits. The model accepts only `0`–`9`, and folds case only for the literal `T`.
- Values other than str, int, bool, None and datetime are abstract (`VOther`), kept only with their `str()` text. Such a value is assumed to have no `isoformat` method. A `date` stored under a timestamp key would be rendered by Python; the model raises AttributeError instead.
- Time zones: datetimes are naive, as `datetime.today()` and strptime without `%z` produce them.
- Aliasing: a mutable argument (a list, a dict) shared between kwargs, the object and its `to_dict` result is not modelled; values are copied.
- BaseModels.Reload: this is a composition stated for the round-trip property. It is not a function of the source, and it requires a well-formed object with nonzero microseconds.
