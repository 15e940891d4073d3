/** Shared value types: SQL NULL as an Option, and the identifiers of rows. */
module Common {
  datatype Option<+T> = None | Some(value: T)

  type Time = nat
  type VaultId = nat
  type FileId = nat
  type JobId = nat
  type Token = nat

  /** Earlier-or-equal on a nullable timestamp; NULL compares false. */
  predicate DueBy(stamp: Option<Time>, now: Time) {
    stamp.Some? && stamp.value <= now
  }

  /** The characters `str.strip` removes. */
  predicate IsSpace(c: char) {
    var n := c as int;
    || 9 <= n <= 13 || 28 <= n <= 32 || n == 0x85 || n == 0xA0 || n == 0x1680 || 0x2000 <= n <= 0x200A
    || n == 0x2028 || n == 0x2029 || n == 0x202F || n == 0x205F || n == 0x3000
  }

  // ----- catalog terms -----

  type Path = string

  /** Exact provider identity: object key and VersionId. */
  datatype Target = Target(key: string, version: string)

  datatype Availability = Available | Missing | Purged | Unknown
  datatype Integrity = Unverified | Verified | Mismatch
  datatype Presence = Present | Absent | Unsupported

  // ----- collections -----

  predicate NoDuplicates<T(==)>(s: seq<T>) {
    forall i, j :: 0 <= i < j < |s| ==> s[i] != s[j]
  }

  lemma {:induction false} SubsetSize<T>(a: set<T>, b: set<T>)
    requires a <= b
    ensures |a| <= |b|
    decreases |a|
  {
    if x :| x in a {
      SubsetSize(a - {x}, b - {x});
    } else {
      assert a == {};
    }
  }
}
