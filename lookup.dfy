/**
 The two list lookups the handler performs: `accessories.find` by display name,
 and `exclude.includes` of a display name.
 */
module Lookup {
  import opened HandlerTypes

  /**
   `accessories.find(a => a.displayName == name)`: the first accessory with that
   name, or nothing when no accessory has it.
   */
  function FindByName(accessories: seq<Accessory>, name: string): (r: Option<Accessory>)
    ensures r.None? <==> forall i :: 0 <= i < |accessories| ==> accessories[i].displayName != name
    ensures r.Some? ==> exists i :: 0 <= i < |accessories| && accessories[i] == r.value &&
                          r.value.displayName == name &&
                          forall j :: 0 <= j < i ==> accessories[j].displayName != name
  {
    if accessories == [] then None
    else if accessories[0].displayName == name then Some(accessories[0])
    else
      FindByName(accessories[1..], name)
  }

  /** `xs.includes(x)`. */
  function Contains(xs: seq<string>, x: string): (r: bool)
    ensures r <==> exists i :: 0 <= i < |xs| && xs[i] == x
  {
    if xs == [] then false
    else if xs[0] == x then true
    else
      Contains(xs[1..], x)
  }
}
