/** Values shared by the sync and query modules: documents as the Python side sees them. */
module Common {

  datatype Option<+T> = None | Some(value: T)

  /** A document value; `Clock` is the dictionary of counters stored under `_vclock`. */
  datatype Value =
    | Null
    | Num(n: real)
    | Str(s: string)
    | List(items: seq<Value>)
    | Obj(fields: map<string, Value>)
    | Clock(counters: map<string, int>)

  type Doc = map<string, Value>

  lemma DropTwice<T>(s: seq<T>, a: nat, b: nat)
    requires a + b <= |s|
    ensures s[a..][b..] == s[a + b..]
  {
  }

  lemma Regroup<T>(a: seq<T>, b: seq<T>, c: seq<T>)
    ensures (a + b) + c == a + (b + c)
  {
  }

  /** `doc.get(field)`: an absent field reads as null. */
  function Get(d: Doc, f: string): Value {
    if f in d then d[f] else Null
  }

  const ID := "_id"
  const STAMP := "_lastModified"
  const VCLOCK := "_vclock"

  /** The modification time; absent or null reads as zero. */
  function Stamp(d: Doc): real {
    if Get(d, STAMP).Num? then Get(d, STAMP).n else 0.0
  }
}
