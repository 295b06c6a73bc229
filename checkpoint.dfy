/**
 * The checkpoint file and the resume decision.
 *
 * The file holds the JSON object {"file": target, "length": L, "index": i}.
 * Reading and writing JSON are outside the model: the file is represented by the
 * object it parses to, or by `Corrupt` when it does not parse. `Storage` is the
 * durable state the search writes: the checkpoint file and the found-passphrase
 * file, with a ghost log of every checkpoint save.
 */
module Checkpoint {
  import opened Wrappers

  /**
   * A JSON value as main uses it. JSON booleans are read as JInt(0) / JInt(1),
   * since Python's bool is an int for range() and +=; every other non-integer,
   * non-string value (null, floats, arrays, objects) is JOther with its truthiness.
   */
  datatype JsonValue = JInt(i: int) | JStr(s: string) | JOther(truthy: bool)

  type JsonObject = map<string, JsonValue>

  /** What the checkpoint path holds when it exists. */
  datatype StoredFile = Written(doc: JsonObject) | Corrupt

  /** The record save_checkpoint writes. */
  datatype Record = Record(file: string, length: int, index: int)

  /** The JSON object save_checkpoint writes for a record. */
  function Encode(c: Record): JsonObject
  {
    map["file" := JStr(c.file), "length" := JInt(c.length), "index" := JInt(c.index)]
  }

  /** load_checkpoint: a missing file and a file that does not parse both give None. */
  function Load(f: Option<StoredFile>): (ck: Option<JsonObject>)
    ensures ck.Some? <==> f.Some? && f.value.Written?
    ensures ck.Some? ==> ck.value == f.value.doc
  {
    match f
    case None => None
    case Some(Corrupt) => None
    case Some(Written(doc)) => Some(doc)
  }

  /** Python's dict.get(key, default). */
  function Get(doc: JsonObject, key: string, default: JsonValue): JsonValue
  {
    if key in doc then doc[key] else default
  }

  /** The values main holds in start_len and start_index after the resume decision. */
  datatype StartValues = StartValues(length: JsonValue, index: JsonValue)

  /** A loaded checkpoint is used only when it is a non-empty object whose "file" is the target. */
  predicate Honoured(ck: Option<JsonObject>, target: string)
  {
    ck.Some? && ck.value != map[] && "file" in ck.value && ck.value["file"] == JStr(target)
  }

  /** The resume decision: start_len and start_index. */
  function ChooseStart(ck: Option<JsonObject>, target: string, minLen: int): (r: StartValues)
    ensures !Honoured(ck, target) ==> r == StartValues(JInt(minLen), JInt(0))
    ensures Honoured(ck, target) ==>
      r.length == (if "length" in ck.value then ck.value["length"] else JInt(minLen)) &&
      r.index == (if "index" in ck.value then ck.value["index"] else JInt(0))
  {
    var defaults := StartValues(JInt(minLen), JInt(0));
    match ck
    case None => defaults
    case Some(doc) =>
      if doc == map[] then defaults
      else if Get(doc, "file", JOther(false)) == JStr(target) then
        StartValues(Get(doc, "length", JInt(minLen)), Get(doc, "index", JInt(0)))
      else defaults
  }

  /** Saving a record and loading it back for the same target resumes exactly there. */
  lemma SaveThenResume(c: Record, minLen: int)
    ensures ChooseStart(Load(Some(Written(Encode(c)))), c.file, minLen)
         == StartValues(JInt(c.length), JInt(c.index))
  {
    var doc := Encode(c);
    assert doc["file"] == JStr(c.file);
    assert doc["length"] == JInt(c.length) && doc["index"] == JInt(c.index);
  }

  /** A checkpoint for another target behaves exactly like no checkpoint at all. */
  lemma ForeignCheckpointIgnored(ck: Option<JsonObject>, target: string, minLen: int)
    requires ck.Some? && "file" in ck.value && ck.value["file"] != JStr(target)
    ensures ChooseStart(ck, target, minLen) == ChooseStart(None, target, minLen)
  {
  }

  /** A missing or unparseable file means starting at (minLen, 0). */
  lemma UnreadableCheckpointIgnored(f: Option<StoredFile>, target: string, minLen: int)
    requires f.None? || f.value.Corrupt?
    ensures ChooseStart(Load(f), target, minLen) == StartValues(JInt(minLen), JInt(0))
  {
  }

  /** Where the search loop starts, or why it fails before testing anything. */
  datatype Start = StartAt(length: int, index: int) | Crashed(reason: string)

  /** Python truthiness of a JSON value. */
  predicate Truthy(v: JsonValue)
  {
    match v
    case JInt(i) => i != 0
    case JStr(s) => s != ""
    case JOther(t) => t
  }

  /**
   * What `for length in range(start_len, max + 1)` and the skip that follows make
   * of the start values: a non-integer length fails in range(); a negative first
   * length fails in itertools.product; a truthy non-integer index fails in
   * range(start_index); a falsy non-integer index skips nothing. When the range
   * is empty none of this is evaluated.
   */
  function ResolveStart(sv: StartValues, maxLen: int): (r: Start)
    ensures r.StartAt? ==> 0 <= r.length || maxLen < r.length
    ensures r.StartAt? ==> sv.length == JInt(r.length)
    ensures r.StartAt? && r.length <= maxLen && sv.index.JInt? ==> r.index == sv.index.i
    ensures r.StartAt? && r.length <= maxLen && !sv.index.JInt? ==> r.index == 0
    ensures r.Crashed? <==>
      !sv.length.JInt? ||
      (sv.length.i <= maxLen && (sv.length.i < 0 || (!sv.index.JInt? && Truthy(sv.index))))
  {
    match sv.length
    case JInt(len) =>
      if maxLen < len then StartAt(len, 0)
      else if len < 0 then Crashed("ValueError: repeat argument cannot be negative")
      else (
        match sv.index
        case JInt(i) => StartAt(len, i)
        case _ => if Truthy(sv.index) then Crashed("TypeError: range() index") else StartAt(len, 0)
      )
    case _ => Crashed("TypeError: range() length")
  }

  /** The durable state of a run: the checkpoint file and found.txt. */
  class Storage {
    /** The checkpoint file; None when it does not exist. */
    var checkpoint: Option<StoredFile>
    /** The contents of found.txt; None when it does not exist. */
    var found: Option<string>
    /** Every record saved, oldest first. */
    ghost var saves: seq<Record>

    constructor (initial: Option<StoredFile>, foundFile: Option<string>)
      ensures checkpoint == initial && found == foundFile && saves == []
    {
      checkpoint := initial;
      found := foundFile;
      saves := [];
    }

    /** save_checkpoint: overwrite the checkpoint file with the record. */
    method Save(c: Record)
      modifies this
      ensures checkpoint == Some(Written(Encode(c)))
      ensures saves == old(saves) + [c]
      ensures found == old(found)
    {
      checkpoint := Some(Written(Encode(c)));
      saves := saves + [c];
    }

    /** os.remove of the checkpoint, taken to succeed (main ignores a failure; file I/O errors are not modelled). */
    method RemoveCheckpoint()
      modifies this
      ensures checkpoint == None
      ensures saves == old(saves) && found == old(found)
    {
      checkpoint := None;
    }

    /** Writing found.txt: the passphrase followed by a newline. */
    method WriteFound(passphrase: string)
      modifies this
      ensures found == Some(passphrase + "\n")
      ensures checkpoint == old(checkpoint) && saves == old(saves)
    {
      found := Some(passphrase + "\n");
    }
  }
}
