/** The message record: a map of named fields with validated keys and trimmed
    values, the set of streams it is routed to, a metadata map for
    processing state, and an append-only list of processing errors. */
module Messages {
  import opened Wrappers

  // ---------------------------------------------------------------------
  // Field keys
  // ---------------------------------------------------------------------

  /** Key characters: ASCII letters and digits, underscore, hyphen, dot, at. */
  predicate ValidKeyChar(c: char) {
    || ('a' <= c <= 'z') || ('A' <= c <= 'Z') || ('0' <= c <= '9')
    || c == '_' || c == '-' || c == '.' || c == '@'
  }

  /** `validKey`: every character is a key character; the empty key is valid. */
  predicate ValidKey(k: string) {
    forall i :: 0 <= i < |k| ==> ValidKeyChar(k[i])
  }

  /** `cleanKey`: every character that is not a key character becomes '_'. */
  function CleanKey(k: string): string
  {
    if k == [] then []
    else [if ValidKeyChar(k[0]) then k[0] else '_'] + CleanKey(k[1..])
  }

  /** Cleaning keeps the length and replaces each invalid character by exactly
      one underscore, leaving every valid character where it was. */
  lemma {:induction false} CleanKeyPointwise(k: string)
    ensures |CleanKey(k)| == |k|
    ensures forall i :: 0 <= i < |k| ==>
              CleanKey(k)[i] == (if ValidKeyChar(k[i]) then k[i] else '_')
  {
    if k != [] {
      CleanKeyPointwise(k[1..]);
      forall i | 0 <= i < |k|
        ensures CleanKey(k)[i] == (if ValidKeyChar(k[i]) then k[i] else '_')
      {
        if i > 0 {
          assert CleanKey(k)[i] == CleanKey(k[1..])[i - 1];
          assert k[1..][i - 1] == k[i];
        }
      }
    }
  }

  /** A cleaned key is always valid. */
  lemma CleanKeyIsValid(k: string)
    ensures ValidKey(CleanKey(k))
  {
    CleanKeyPointwise(k);
  }

  /** Cleaning changes a key exactly when the key is invalid. */
  lemma CleanKeyFixesExactlyValid(k: string)
    ensures CleanKey(k) == k <==> ValidKey(k)
  {
    CleanKeyPointwise(k);
    if !ValidKey(k) {
      var i :| 0 <= i < |k| && !ValidKeyChar(k[i]);
      assert CleanKey(k)[i] == '_' != k[i];
    }
  }

  /** Cleaning twice is cleaning once. */
  lemma CleanKeyIdempotent(k: string)
    ensures CleanKey(CleanKey(k)) == CleanKey(k)
  {
    CleanKeyIsValid(k);
    CleanKeyFixesExactlyValid(CleanKey(k));
  }

  // ---------------------------------------------------------------------
  // String trimming, as Java's `String.trim` (code points up to ' ' are blank)
  // ---------------------------------------------------------------------

  predicate Blank(c: char) { c <= ' ' }

  /** The number of leading blank characters. */
  function LeadingBlanks(s: string): (n: nat)
    ensures n <= |s|
  {
    if s != [] && Blank(s[0]) then 1 + LeadingBlanks(s[1..]) else 0
  }

  /** The number of trailing blank characters. */
  function TrailingBlanks(s: string): (n: nat)
    ensures n <= |s|
  {
    if s != [] && Blank(s[|s| - 1]) then 1 + TrailingBlanks(s[..|s| - 1]) else 0
  }

  function Trim(s: string): string
  {
    var t := s[LeadingBlanks(s)..];
    t[..|t| - TrailingBlanks(t)]
  }

  lemma {:induction false} LeadingBlanksSpec(s: string)
    ensures forall k :: 0 <= k < LeadingBlanks(s) ==> Blank(s[k])
    ensures LeadingBlanks(s) < |s| ==> !Blank(s[LeadingBlanks(s)])
  {
    if s != [] && Blank(s[0]) {
      LeadingBlanksSpec(s[1..]);
      forall k | 0 <= k < LeadingBlanks(s) ensures Blank(s[k]) {
        if k > 0 { assert s[k] == s[1..][k - 1]; }
      }
    }
  }

  lemma {:induction false} TrailingBlanksSpec(s: string)
    ensures forall k :: |s| - TrailingBlanks(s) <= k < |s| ==> Blank(s[k])
    ensures TrailingBlanks(s) < |s| ==> !Blank(s[|s| - 1 - TrailingBlanks(s)])
  {
    if s != [] && Blank(s[|s| - 1]) {
      var p := s[..|s| - 1];
      TrailingBlanksSpec(p);
      forall k | |s| - TrailingBlanks(s) <= k < |s| ensures Blank(s[k]) {
        if k < |s| - 1 { assert s[k] == p[k]; }
      }
      if TrailingBlanks(s) < |s| {
        assert s[|s| - 1 - TrailingBlanks(s)] == p[|p| - 1 - TrailingBlanks(p)];
      }
    }
  }

  /** Where the trimmed part of `s` ends. */
  function TrimEnd(s: string): (j: nat)
    ensures LeadingBlanks(s) <= j <= |s|
  {
    |s| - TrailingBlanks(s[LeadingBlanks(s)..])
  }

  /** The trimmed string is the slice up to `TrimEnd`. */
  lemma TrimSlice(s: string)
    ensures Trim(s) == s[LeadingBlanks(s)..TrimEnd(s)]
  {
    var t := s[LeadingBlanks(s)..];
    assert t[..|t| - TrailingBlanks(t)] == s[LeadingBlanks(s)..TrimEnd(s)];
  }

  /** The trailing blanks of a suffix of `s` are trailing blanks of `s`. */
  lemma SuffixTrailingBlanks(s: string, i: nat, j: nat)
    requires i <= |s| && j == |s| - TrailingBlanks(s[i..])
    ensures forall k :: j <= k < |s| ==> Blank(s[k])
    ensures i < j ==> !Blank(s[j - 1])
  {
    var t := s[i..];
    var n := TrailingBlanks(t);
    TrailingBlanksSpec(t);
    forall k | j <= k < |s| ensures Blank(s[k]) {
      assert s[k] == t[k - i];
    }
    if i < j {
      assert s[j - 1] == t[|t| - 1 - n];
    }
  }

  /** Everything after `TrimEnd` is blank, and the character before it is not. */
  lemma TrimEndSpec(s: string)
    ensures forall k :: TrimEnd(s) <= k < |s| ==> Blank(s[k])
    ensures LeadingBlanks(s) < TrimEnd(s) ==> !Blank(s[TrimEnd(s) - 1])
  {
    SuffixTrailingBlanks(s, LeadingBlanks(s), TrimEnd(s));
  }

  /** Trimming removes blanks from both ends and nothing else: the result is
      the slice of the input between the outermost non-blank characters, and
      it neither starts nor ends with a blank. */
  lemma TrimSpec(s: string)
    ensures var i, j := LeadingBlanks(s), TrimEnd(s);
      && i <= j <= |s| && Trim(s) == s[i..j]
      && (forall k :: 0 <= k < i ==> Blank(s[k]))
      && (forall k :: j <= k < |s| ==> Blank(s[k]))
      && (Trim(s) != [] ==> !Blank(Trim(s)[0]) && !Blank(Trim(s)[|Trim(s)| - 1]))
  {
    LeadingBlanksSpec(s);
    TrimEndSpec(s);
    TrimSlice(s);
    var i, j := LeadingBlanks(s), TrimEnd(s);
    if i < j {
      assert Trim(s)[0] == s[i];
      assert Trim(s)[|Trim(s)| - 1] == s[j - 1];
    }
  }

  /** A trimmed string is its own trim. */
  lemma TrimIdempotent(s: string)
    ensures Trim(Trim(s)) == Trim(s)
  {
    TrimSpec(s);
    var t := Trim(s);
    if t != [] {
      assert LeadingBlanks(t) == 0;
      assert TrailingBlanks(t) == 0;
    } else {
      assert LeadingBlanks(t) == 0;
    }
  }

  /** A string trims to nothing exactly when all of it is blank. */
  lemma TrimEmptyIffBlank(s: string)
    ensures Trim(s) == [] <==> forall k :: 0 <= k < |s| ==> Blank(s[k])
  {
    TrimSpec(s);
    if Trim(s) != [] {
      assert !Blank(s[LeadingBlanks(s)]);
    }
  }

  // ---------------------------------------------------------------------
  // Field values and the field map
  // ---------------------------------------------------------------------

  /** Field values: strings, integers, timestamps (milliseconds) and lists of
      strings. */
  datatype Value = Str(s: string) | Num(n: int) | Time(millis: int) | StrList(items: seq<string>)

  /** What `addField` stores for a value: a string is trimmed and dropped
      when nothing is left; every other value is stored as it is. */
  function Normalize(v: Value): Option<Value>
  {
    match v
    case Str(s) => if Trim(s) == [] then None else Some(Str(Trim(s)))
    case _ => Some(v)
  }

  /** A stored value is never a blank or untrimmed string. */
  predicate CleanValue(v: Value) {
    v.Str? ==> v.s != [] && Trim(v.s) == v.s
  }

  /** The field map invariant: keys are valid and values clean. */
  predicate WellFormedFields(fs: map<string, Value>) {
    forall k :: k in fs ==> ValidKey(k) && CleanValue(fs[k])
  }

  /** The field map after `addField(key, value)`; `None` is Java's null. */
  function WithField(fs: map<string, Value>, key: string, value: Option<Value>): map<string, Value>
  {
    if !ValidKey(key) || value.None? || Normalize(value.value).None? then fs
    else fs[key := Normalize(value.value).value]
  }

  /** Normalizing yields a clean value, and a clean value normalizes to itself. */
  lemma NormalizeClean(v: Value)
    ensures Normalize(v).Some? ==> CleanValue(Normalize(v).value)
    ensures CleanValue(v) ==> Normalize(v) == Some(v)
  {
    if v.Str? {
      TrimIdempotent(v.s);
    }
  }

  /** `addField`: an invalid key, a null value or a blank string stores
      nothing; otherwise the key maps to the trimmed value; no other key
      changes. */
  lemma WithFieldEffect(fs: map<string, Value>, key: string, value: Option<Value>)
    ensures var r := WithField(fs, key, value);
      && (forall k :: k != key ==> (k in r <==> k in fs) && (k in fs ==> r[k] == fs[k]))
      && (!ValidKey(key) || value.None? ==> r == fs)
      && (value.Some? && value.value.Str? ==>
            (Trim(value.value.s) == [] ==> r == fs)
            && (ValidKey(key) && Trim(value.value.s) != [] ==> key in r && r[key] == Str(Trim(value.value.s))))
      && (value.Some? && !value.value.Str? && ValidKey(key) ==> key in r && r[key] == value.value)
  {
  }

  /** `addField` keeps the field map invariant. */
  lemma WithFieldWellFormed(fs: map<string, Value>, key: string, value: Option<Value>)
    requires WellFormedFields(fs)
    ensures WellFormedFields(WithField(fs, key, value))
  {
    if value.Some? {
      NormalizeClean(value.value);
    }
  }

  /** The fields `addFields` stores for a whole map of entries. */
  function StorableEntries(entries: map<string, Value>): (r: map<string, Value>)
  {
    map k | k in entries && ValidKey(k) && Normalize(entries[k]).Some? :: Normalize(entries[k]).value
  }

  /** Adding the entries of a map one by one, in any order, adds exactly their
      storable part; a key the map gives a value for keeps its old field only
      when that value cannot be stored. */
  lemma StorableEntriesEffect(fs: map<string, Value>, entries: map<string, Value>, k: string)
    ensures k in fs + StorableEntries(entries) <==>
              k in fs || (k in entries && ValidKey(k) && Normalize(entries[k]).Some?)
    ensures k in entries && ValidKey(k) && Normalize(entries[k]).Some? ==>
              (fs + StorableEntries(entries))[k] == Normalize(entries[k]).value
    ensures k in fs && !(k in entries && ValidKey(k) && Normalize(entries[k]).Some?) ==>
              (fs + StorableEntries(entries))[k] == fs[k]
  {
  }

  /** The entries of a map whose keys are not in `rest`. */
  function Outside(entries: map<string, Value>, rest: set<string>): (r: map<string, Value>)
    ensures rest == entries.Keys ==> r == map[]
    ensures rest == {} ==> r == entries
  {
    map k | k in entries && k !in rest :: entries[k]
  }

  /** Taking one more key out of `rest` adds exactly its entry. */
  lemma OutsideStep(entries: map<string, Value>, rest: set<string>, k: string)
    requires k in rest && k in entries
    ensures k !in Outside(entries, rest)
    ensures Outside(entries, rest - {k}) == Outside(entries, rest)[k := entries[k]]
  {
  }

  /** Adding one new entry to the map already added is one `addField`. */
  lemma AddEntryStep(fs: map<string, Value>, done: map<string, Value>, k: string, v: Value)
    requires k !in done
    ensures WithField(fs + StorableEntries(done), k, Some(v)) == fs + StorableEntries(done[k := v])
  {
    var before := StorableEntries(done);
    if ValidKey(k) && Normalize(v).Some? {
      assert StorableEntries(done[k := v]) == before[k := Normalize(v).value];
      assert fs + before[k := Normalize(v).value] == (fs + before)[k := Normalize(v).value];
    } else {
      assert StorableEntries(done[k := v]) == before;
    }
  }

  /** The keys `removeField` refuses to remove. */
  const ReservedFields: set<string> := {"message", "source", "timestamp"}

  function WithoutField(fs: map<string, Value>, key: string): map<string, Value>
  {
    if key in ReservedFields then fs else fs - {key}
  }

  /** `removeField`: a reserved key stays; any other key is gone afterwards;
      all other fields are untouched. */
  lemma WithoutFieldEffect(fs: map<string, Value>, key: string)
    ensures var r := WithoutField(fs, key);
      && (key in ReservedFields ==> r == fs)
      && (key !in ReservedFields ==> key !in r)
      && (forall k :: k != key ==> (k in r <==> k in fs) && (k in fs ==> r[k] == fs[k]))
      && (WellFormedFields(fs) ==> WellFormedFields(r))
  {
  }

  /** The text form of a generated random UUID: 36 characters, lower-case
      hexadecimal digits and hyphens. */
  predicate UuidText(id: string) {
    |id| == 36 && forall k :: 0 <= k < |id| ==> ('0' <= id[k] <= '9' || 'a' <= id[k] <= 'f' || id[k] == '-')
  }

  /** A generated id is stored as it is: it has no blank to trim. */
  lemma UuidTextClean(id: string)
    requires UuidText(id)
    ensures CleanValue(Str(id))
  {
    TrimSpec(id);
    assert !Blank(id[0]) && !Blank(id[|id| - 1]);
    assert LeadingBlanks(id) == 0 && TrimEnd(id) == |id|;
    assert id[0..|id|] == id;
  }

  /** The fields of a message built from message text, source, timestamp and
      the generated id; the id is stored unchanged under `_id`. */
  function InitialFields(id: string, message: Option<string>, source: Option<string>,
                         timestamp: int): map<string, Value>
  {
    var withId := map["_id" := Str(id)];
    var withMessage := WithField(withId, "message", if message.Some? then Some(Str(message.value)) else None);
    var withSource := WithField(withMessage, "source", if source.Some? then Some(Str(source.value)) else None);
    WithField(withSource, "timestamp", Some(Time(timestamp)))
  }

  /** With a generated id, the initial fields satisfy the field map invariant. */
  lemma InitialFieldsWellFormed(id: string, message: Option<string>, source: Option<string>, timestamp: int)
    requires UuidText(id)
    ensures WellFormedFields(InitialFields(id, message, source, timestamp))
  {
    var withId := map["_id" := Str(id)];
    var m := if message.Some? then Some(Str(message.value)) else None;
    var withMessage := WithField(withId, "message", m);
    var s := if source.Some? then Some(Str(source.value)) else None;
    var withSource := WithField(withMessage, "source", s);
    UuidTextClean(id);
    assert ValidKey("_id");
    assert WellFormedFields(withId);
    WithFieldWellFormed(withId, "message", m);
    WithFieldWellFormed(withMessage, "source", s);
    WithFieldWellFormed(withSource, "timestamp", Some(Time(timestamp)));
  }

  /** The constructor stores the id unchanged, trims message and source and
      stores neither when it is null or blank, always stores the timestamp,
      and stores nothing else. */
  lemma InitialFieldsEffect(id: string, message: Option<string>, source: Option<string>, timestamp: int)
    ensures var fs := InitialFields(id, message, source, timestamp);
      && fs.Keys <= {"_id", "message", "source", "timestamp"}
      && "_id" in fs && fs["_id"] == Str(id)
      && ("message" in fs <==> message.Some? && Trim(message.value) != [])
      && ("message" in fs ==> fs["message"] == Str(Trim(message.value)))
      && ("source" in fs <==> source.Some? && Trim(source.value) != [])
      && ("source" in fs ==> fs["source"] == Str(Trim(source.value)))
      && "timestamp" in fs && fs["timestamp"] == Time(timestamp)
  {
    var withId := map["_id" := Str(id)];
    var m := if message.Some? then Some(Str(message.value)) else None;
    var withMessage := WithField(withId, "message", m);
    var s := if source.Some? then Some(Str(source.value)) else None;
    var withSource := WithField(withMessage, "source", s);
    assert ValidKey("message") && ValidKey("source") && ValidKey("timestamp");
    WithFieldEffect(withId, "message", m);
    WithFieldEffect(withMessage, "source", s);
    WithFieldEffect(withSource, "timestamp", Some(Time(timestamp)));
  }

  /** With message text and source given, a new message has exactly the four
      fields `_id`, `message`, `source` and `timestamp`, and `_id` holds the
      id. */
  lemma InitialFieldNames(id: string, message: string, source: string, timestamp: int)
    requires Trim(message) != [] && Trim(source) != []
    ensures InitialFields(id, Some(message), Some(source), timestamp).Keys ==
              {"_id", "message", "source", "timestamp"}
    ensures InitialFields(id, Some(message), Some(source), timestamp)["_id"] == Str(id)
  {
    InitialFieldsEffect(id, Some(message), Some(source), timestamp);
  }

  /** A message is complete when its message text is present. */
  predicate Complete(fs: map<string, Value>) {
    "message" in fs && fs["message"].Str? && fs["message"].s != []
  }

  /** A freshly built message is complete exactly when its message text is
      neither null nor blank; the source plays no part. */
  lemma InitialComplete(id: string, message: Option<string>, source: Option<string>, timestamp: int)
    ensures Complete(InitialFields(id, message, source, timestamp)) <==>
              message.Some? && Trim(message.value) != []
  {
    InitialFieldsEffect(id, message, source, timestamp);
  }

  /** One processing error: its cause, a message and details. */
  datatype ProcessingError = ProcessingError(cause: string, message: string, details: string)

  class Message {
    var fields: map<string, Value>
    /** The ids of the streams the message is routed to. */
    var streams: set<string>
    var metadata: map<string, Value>
    var errors: seq<ProcessingError>

    ghost predicate Valid()
      reads this
    {
      WellFormedFields(fields)
    }

    /** `new Message(message, source, timestamp)`; `id` is the identifier
        the constructor generates, a random UUID in its text form. The
        message starts with no streams, metadata or errors. */
    constructor (id: string, message: Option<string>, source: Option<string>, timestamp: int)
      requires UuidText(id)
      ensures Valid()
      ensures fields == InitialFields(id, message, source, timestamp)
      ensures streams == {} && metadata == map[] && errors == []
    {
      InitialFieldsWellFormed(id, message, source, timestamp);
      fields := InitialFields(id, message, source, timestamp);
      streams := {};
      metadata := map[];
      errors := [];
    }

    /** `new Message(fields)`: the given entries are added as by `addFields`. */
    constructor FromFields(entries: map<string, Value>)
      ensures Valid()
      ensures fields == StorableEntries(entries)
      ensures streams == {} && metadata == map[] && errors == []
    {
      fields := map[];
      streams := {};
      metadata := map[];
      errors := [];
      new;
      AddFields(entries);
    }

    method AddField(key: string, value: Option<Value>)
      requires Valid()
      modifies this`fields
      ensures Valid()
      ensures fields == WithField(old(fields), key, value)
    {
      WithFieldWellFormed(fields, key, value);
      if ValidKey(key) && value.Some? {
        var v := Normalize(value.value);
        if v.Some? {
          fields := fields[key := v.value];
        }
      }
    }

    /** Adds every entry of the map, one key at a time. */
    method AddFields(entries: map<string, Value>)
      requires Valid()
      modifies this`fields
      ensures Valid()
      ensures fields == old(fields) + StorableEntries(entries)
    {
      var rest := entries.Keys;
      while rest != {}
        invariant Valid() && rest <= entries.Keys
        invariant fields == old(fields) + StorableEntries(Outside(entries, rest))
        decreases rest
      {
        var k :| k in rest;
        OutsideStep(entries, rest, k);
        AddField(k, Some(entries[k]));
        AddEntryStep(old(fields), Outside(entries, rest), k, entries[k]);
        rest := rest - {k};
      }
    }

    method RemoveField(key: string)
      requires Valid()
      modifies this`fields
      ensures Valid()
      ensures fields == WithoutField(old(fields), key)
    {
      if key !in ReservedFields {
        fields := fields - {key};
      }
    }

    /** `getField`: the stored value, or null. */
    method GetField(key: string) returns (r: Option<Value>)
      ensures key in fields ==> r == Some(fields[key])
      ensures key !in fields ==> r == None
    {
      r := if key in fields then Some(fields[key]) else None;
    }

    method HasField(key: string) returns (r: bool)
      ensures r <==> key in fields
    {
      r := key in fields;
    }

    method IsComplete() returns (r: bool)
      ensures r <==> Complete(fields)
    {
      r := "message" in fields && fields["message"].Str? && fields["message"].s != [];
    }

    method AddStream(stream: string)
      modifies this`streams
      ensures streams == old(streams) + {stream}
    {
      streams := streams + {stream};
    }

    method AddStreams(ss: seq<string>)
      modifies this`streams
      ensures streams == old(streams) + set s | s in ss
    {
      var i := 0;
      while i < |ss|
        invariant 0 <= i <= |ss|
        invariant streams == old(streams) + set s | s in ss[..i]
      {
        AddStream(ss[i]);
        assert ss[..i + 1] == ss[..i] + [ss[i]];
        i := i + 1;
      }
      assert ss[..i] == ss;
    }

    /** Removes the stream; the result says whether it was assigned. */
    method RemoveStream(stream: string) returns (removed: bool)
      modifies this`streams
      ensures removed <==> stream in old(streams)
      ensures streams == old(streams) - {stream}
    {
      removed := stream in streams;
      streams := streams - {stream};
    }

    /** A copy of the stream set, unaffected by later changes to the message. */
    method GetStreams() returns (r: set<string>)
      ensures r == streams
    {
      r := streams;
    }

    method SetMetadata(key: string, value: Value)
      modifies this`metadata
      ensures metadata == old(metadata)[key := value]
    {
      metadata := metadata[key := value];
    }

    method RemoveMetadata(key: string)
      modifies this`metadata
      ensures metadata == old(metadata) - {key}
    {
      metadata := metadata - {key};
    }

    /** The metadata value, or null when the key is unset. */
    method GetMetadataValue(key: string) returns (r: Option<Value>)
      ensures key in metadata ==> r == Some(metadata[key])
      ensures key !in metadata ==> r == None
    {
      r := if key in metadata then Some(metadata[key]) else None;
    }

    /** The metadata value, or the given default when the key is unset. */
    method GetMetadataValueOr(key: string, default: Value) returns (r: Value)
      ensures key in metadata ==> r == metadata[key]
      ensures key !in metadata ==> r == default
    {
      var v := GetMetadataValue(key);
      r := v.GetOr(default);
    }

    method AddProcessingError(e: ProcessingError)
      modifies this`errors
      ensures errors == old(errors) + [e]
    {
      errors := errors + [e];
    }

    /** The errors in the order they were added, as an immutable value. */
    method ProcessingErrors() returns (r: seq<ProcessingError>)
      ensures r == errors
    {
      r := errors;
    }
  }

  /** The stream scenario: a snapshot taken after the first add keeps only
      that stream; removing an assigned stream reports true, removing it again
      reports false. */
  method StreamMutators(m: Message, s1: string, s2: string, s3: string)
      returns (snapshot: set<string>, first: bool, second: bool, after: set<string>)
    requires m.streams == {} && s1 != s2 && s2 != s3 && s1 != s3
    modifies m
    ensures snapshot == {s1}
    ensures first && !second
    ensures after == {s1, s3}
  {
    m.AddStream(s1);
    snapshot := m.GetStreams();
    m.AddStreams([s3, s2]);
    first := m.RemoveStream(s2);
    second := m.RemoveStream(s2);
    after := m.GetStreams();
  }

  /** The metadata scenario: unset gives null, set-then-get gives the value,
      removing another key keeps it, removing the key clears it. */
  method MetadataRoundTrip(m: Message, key: string, other: string, v: Value)
      returns (before: Option<Value>, afterSet: Option<Value>, afterOther: Option<Value>,
               afterRemove: Option<Value>)
    requires key !in m.metadata && key != other
    modifies m
    ensures before == None && afterSet == Some(v) && afterOther == Some(v) && afterRemove == None
  {
    before := m.GetMetadataValue(key);
    m.SetMetadata(key, v);
    afterSet := m.GetMetadataValue(key);
    m.RemoveMetadata(other);
    afterOther := m.GetMetadataValue(key);
    m.RemoveMetadata(key);
    afterRemove := m.GetMetadataValue(key);
  }
}
