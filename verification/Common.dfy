/** Values shared by every part of the model: results, error codes, parameter
    entries and the ASCII part of Go's string helpers. */
module Common {

  datatype Option<+T> = None | Some(value: T)

  /** The gRPC status codes the driver returns. */
  datatype Code = InvalidArgument | Canceled | Internal | PermissionDenied

  datatype Result<+T> = Ok(value: T) | Err(code: Code)

  /** What a caller of an RPC sees.  `Panic` is a nil dereference in the handler. */
  datatype Reply = Okay | Error(code: Code) | Panic

  /** The classes of operating-system error the driver tells apart. */
  datatype OsError = Denied | BadArgument | OtherError

  /** One key/value pair of a Go map, as `range` hands it out. */
  datatype Entry = Entry(key: string, value: string)

  // ---------------------------------------------------------------- letter case

  function LowerChar(c: char): char {
    if 'A' <= c <= 'Z' then (c as int + 32) as char else c
  }

  /** strings.ToLower on ASCII text; strings.EqualFold is equality of the results. */
  function Lower(s: string): (l: string)
    ensures |l| == |s|
    ensures forall i :: 0 <= i < |s| ==> l[i] == LowerChar(s[i])
  {
    seq(|s|, i requires 0 <= i < |s| => LowerChar(s[i]))
  }

  predicate HasNoUpper(s: string) {
    forall i :: 0 <= i < |s| ==> !('A' <= s[i] <= 'Z')
  }

  lemma LowerFixes(s: string)
    requires HasNoUpper(s)
    ensures Lower(s) == s
  {}

  predicate OccursAt(s: string, text: string, i: nat) {
    i + |text| <= |s| && s[i..i + |text|] == text
  }

  // ---------------------------------------------------------------- enumerations

  /** `es` is one of the orders in which `range` may visit the map `m`. */
  ghost predicate Enumerates(es: seq<Entry>, m: map<string, string>) {
    && (forall i, j :: 0 <= i < j < |es| ==> es[i].key != es[j].key)
    && (forall e :: e in es ==> e.key in m && m[e.key] == e.value)
    && (forall k :: k in m ==> Entry(k, m[k]) in es)
  }

  /** No two keys differ only in letter case. */
  ghost predicate UniqueUpToCase(es: seq<Entry>) {
    forall i, j :: 0 <= i < j < |es| ==> Lower(es[i].key) != Lower(es[j].key)
  }

  ghost predicate MapUniqueUpToCase(m: map<string, string>) {
    forall k, l :: k in m && l in m && Lower(k) == Lower(l) ==> k == l
  }

  lemma EnumerationIsUnique(es: seq<Entry>, m: map<string, string>)
    requires Enumerates(es, m) && MapUniqueUpToCase(m)
    ensures UniqueUpToCase(es)
  {
    forall i, j | 0 <= i < j < |es| ensures Lower(es[i].key) != Lower(es[j].key) {
      assert es[i] in es && es[j] in es;
    }
  }

  // ---------------------------------------------------------------- runs

  /** A run without its last event. */
  function Before<T>(run: seq<T>): seq<T>
    requires run != []
  {
    run[..|run| - 1]
  }

  function Last<T>(run: seq<T>): T
    requires run != []
  {
    run[|run| - 1]
  }
}
