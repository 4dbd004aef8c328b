/** Looking keys up in a dictionary built from a list. */
module Lookup {

  /** Where a key stands in a list of keys, or -1; the last place wins, as in a dictionary. */
  function LastIndex(keys: seq<string>, key: string): (k: int)
    ensures -1 <= k < |keys|
    ensures k >= 0 ==> keys[k] == key
    ensures k == -1 ==> key !in keys
  {
    if |keys| == 0 then -1
    else if keys[|keys| - 1] == key then |keys| - 1
    else LastIndex(keys[..|keys| - 1], key)
  }
}
