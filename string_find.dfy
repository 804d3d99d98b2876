/**
  `std::string::find(needle)`, which init/init_trlte.cpp uses to test a bootloader
  prefix with `bootloader.find(prefix) == 0`. `find` returns the lowest position at
  which `needle` occurs, or `npos` (here `None`) when it does not occur.
 */
module StringFind {

  datatype Option<T> = None | Some(value: T)

  /** `needle` occurs in `s` at position `i`. */
  predicate OccursAt(s: string, needle: string, i: nat) {
    i + |needle| <= |s| && s[i..i + |needle|] == needle
  }

  /** `s.find(needle, from)`: scan the positions from `from` upwards. */
  function FindFrom(s: string, needle: string, from: nat): Option<nat>
    decreases |s| - from
  {
    if from + |needle| > |s| then None
    else if s[from..from + |needle|] == needle then Some(from)
    else FindFrom(s, needle, from + 1)
  }

  /** `s.find(needle)`. */
  function Find(s: string, needle: string): Option<nat> {
    FindFrom(s, needle, 0)
  }

  /**
    `FindFrom` returns the lowest position `>= from` at which `needle` occurs, and
    `None` exactly when it occurs at no such position.
   */
  lemma {:induction false} FindFromIsLowest(s: string, needle: string, from: nat)
    ensures FindFrom(s, needle, from).Some? ==>
      var i := FindFrom(s, needle, from).value;
      from <= i && OccursAt(s, needle, i)
      && forall j: nat :: from <= j < i ==> !OccursAt(s, needle, j)
    ensures FindFrom(s, needle, from).None? ==>
      forall j: nat :: from <= j ==> !OccursAt(s, needle, j)
    decreases |s| - from
  {
    if from + |needle| <= |s| && s[from..from + |needle|] != needle {
      FindFromIsLowest(s, needle, from + 1);
    }
  }

  /** `s.find(p) == 0` holds exactly when `p` is a prefix of `s`. */
  lemma FindZeroIsPrefix(s: string, p: string)
    ensures Find(s, p) == Some(0) <==> p <= s
  {
    FindFromIsLowest(s, p, 0);
    if p <= s {
      assert OccursAt(s, p, 0);
    }
  }
}
