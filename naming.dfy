/**
 * `generate_timestamped_name`: the name under which a scan is stored remotely and
 * archived locally is the wall-clock time, formatted as "YYYYMMDD_HHMMSS",
 * followed by '_' and the original file name. The clock reading is a parameter.
 */
module Naming {

  /** The shape strftime("%Y%m%d_%H%M%S") produces: 8 digits, '_', 6 digits. */
  predicate IsStamp(stamp: string)
  {
    && |stamp| == 15
    && stamp[8] == '_'
    && forall i :: 0 <= i < 15 && i != 8 ==> '0' <= stamp[i] <= '9'
  }

  /** The generated name splits into the stamp, one '_' and the original name. */
  function TimestampedName(stamp: string, original: string): (name: string)
    ensures |name| == |stamp| + 1 + |original|
    ensures name[..|stamp|] == stamp && name[|stamp|] == '_'
    ensures name[|stamp| + 1..] == original
  {
    stamp + "_" + original
  }

  /** Stamps of one length make the generator injective: the name gives back both parts. */
  lemma NameDeterminesParts(stamp1: string, original1: string, stamp2: string, original2: string)
    requires |stamp1| == |stamp2|
    requires TimestampedName(stamp1, original1) == TimestampedName(stamp2, original2)
    ensures stamp1 == stamp2 && original1 == original2
  {
  }

  /**
   * For one original name, two calls produce the same name exactly when the clock
   * readings are the same: calls within one second collide, calls in different
   * seconds do not.
   */
  lemma SameOriginalCollidesIffSameStamp(stamp1: string, stamp2: string, original: string)
    ensures TimestampedName(stamp1, original) == TimestampedName(stamp2, original) <==> stamp1 == stamp2
  {
    if TimestampedName(stamp1, original) == TimestampedName(stamp2, original) {
      NameDeterminesParts(stamp1, original, stamp2, original);
    }
  }

  /** A well-formed stamp gives a name matching ^\d{8}_\d{6}_<original>$. */
  lemma StampedNameShape(stamp: string, original: string)
    requires IsStamp(stamp)
    ensures var name := TimestampedName(stamp, original);
      && |name| == 16 + |original|
      && (forall i :: 0 <= i < 15 && i != 8 ==> '0' <= name[i] <= '9')
      && name[8] == '_' && name[15] == '_'
      && name[16..] == original
  {
  }

  /** A well-formed stamp holds digits and '_' only, so no '/'. */
  lemma StampHasNoSlash(stamp: string)
    requires IsStamp(stamp)
    ensures '/' !in stamp
  {
    forall i | 0 <= i < |stamp| ensures stamp[i] != '/' {
      if i != 8 { assert '0' <= stamp[i] <= '9'; }
    }
  }

  /** A name built from slash-free parts is slash-free, so it names a file inside a directory. */
  lemma NoSlashInName(stamp: string, original: string)
    requires '/' !in stamp && '/' !in original
    ensures '/' !in TimestampedName(stamp, original)
  {
    var name := TimestampedName(stamp, original);
    forall i | 0 <= i < |name| ensures name[i] != '/' {
      if i < |stamp| {
        assert name[i] == name[..|stamp|][i];
      } else if i > |stamp| {
        assert name[i] == name[|stamp| + 1..][i - |stamp| - 1];
      }
    }
  }
}
