/**
 * The client-side reducer over the list of contents. Each action returns
 * a new list; nothing is updated in place.
 */
module ContentProvider {
  import opened ContentModel

  /** The four actions the provider dispatches, and any other action type,
      which the reducer's default branch handles. */
  datatype Action =
    | Init(contents: seq<Content>)
    | Add(content: Content)
    | Patch(content: Content)
    | Delete(content: Content)
    | Unrecognised(actionType: string)

  /** `contents.map(c => c.id == p.id ? p : c)`. */
  function Patched(contents: seq<Content>, p: Content): (r: seq<Content>)
    ensures |r| == |contents|
  {
    if contents == [] then []
    else [if contents[0].id == p.id then p else contents[0]] + Patched(contents[1..], p)
  }

  /** `contents.filter(c => c.id != p.id)`. */
  function Deleted(contents: seq<Content>, id: string): (r: seq<Content>)
    ensures |r| <= |contents|
    ensures forall i :: 0 <= i < |r| ==> r[i].id != id
  {
    if contents == [] then []
    else (if contents[0].id != id then [contents[0]] else []) + Deleted(contents[1..], id)
  }

  /** How many elements of the list carry the given id. */
  function CountId(contents: seq<Content>, id: string): nat
  {
    if contents == [] then 0
    else (if contents[0].id == id then 1 else 0) + CountId(contents[1..], id)
  }

  /** The reducer: INIT replaces the whole list, ADD appends, PATCH
      replaces every element whose id matches the payload's, DELETE drops
      every element whose id matches, and any other action keeps the list. */
  function Reduce(contents: seq<Content>, action: Action): (r: seq<Content>)
    ensures action.Init? ==> r == action.contents
    ensures action.Add? ==>
      |r| == |contents| + 1 && r[..|contents|] == contents && r[|contents|] == action.content
    ensures action.Patch? ==>
      |r| == |contents| &&
      forall i :: 0 <= i < |contents| ==>
        r[i] == (if contents[i].id == action.content.id then action.content else contents[i])
    ensures action.Delete? ==>
      |r| + CountId(contents, action.content.id) == |contents| &&
      forall c :: c in r ==> c in contents && c.id != action.content.id
    ensures action.Unrecognised? ==> r == contents
  {
    match action
    case Init(payload) => payload
    case Add(c) => contents + [c]
    case Patch(c) =>
      PatchedAt(contents, c);
      Patched(contents, c)
    case Delete(c) =>
      DeletedCount(contents, c.id);
      DeletedSurvivors(contents, c.id);
      Deleted(contents, c.id)
    case Unrecognised(_) => contents
  }

  /** PATCH keeps length and order; element i becomes the payload exactly
      when its id is the payload's id, and is unchanged otherwise. */
  lemma {:induction false} PatchedAt(contents: seq<Content>, p: Content)
    ensures |Patched(contents, p)| == |contents|
    ensures forall i :: 0 <= i < |contents| ==>
      Patched(contents, p)[i] == (if contents[i].id == p.id then p else contents[i])
  {
    if contents != [] {
      PatchedAt(contents[1..], p);
    }
  }

  /** PATCH with an id that is not in the list changes nothing. */
  lemma PatchAbsentIsIdentity(contents: seq<Content>, p: Content)
    requires forall i :: 0 <= i < |contents| ==> contents[i].id != p.id
    ensures Reduce(contents, Patch(p)) == contents
  {
  }

  /** DELETE keeps exactly the elements whose id differs, each still in
      the list, and none with the deleted id. */
  lemma {:induction false} DeletedSurvivors(contents: seq<Content>, id: string)
    ensures forall c :: c in Deleted(contents, id) <==> c in contents && c.id != id
  {
    if contents != [] {
      DeletedSurvivors(contents[1..], id);
      assert contents == [contents[0]] + contents[1..];
    }
  }

  /** DELETE removes exactly the elements carrying the id: the length
      shrinks by their number, and never grows. */
  lemma {:induction false} DeletedCount(contents: seq<Content>, id: string)
    ensures |Deleted(contents, id)| + CountId(contents, id) == |contents|
  {
    if contents != [] {
      DeletedCount(contents[1..], id);
    }
  }

  /** DELETE keeps the survivors in their original order: filtering a
      concatenation is the concatenation of the filtered parts. */
  lemma {:induction false} DeletedConcat(a: seq<Content>, b: seq<Content>, id: string)
    ensures Deleted(a + b, id) == Deleted(a, id) + Deleted(b, id)
  {
    if a == [] {
      assert a + b == b;
    } else {
      var head := if a[0].id != id then [a[0]] else [];
      assert (a + b)[0] == a[0];
      assert (a + b)[1..] == a[1..] + b;
      DeletedConcat(a[1..], b, id);
      calc {
        Deleted(a + b, id);
        head + Deleted(a[1..] + b, id);
        head + (Deleted(a[1..], id) + Deleted(b, id));
        (head + Deleted(a[1..], id)) + Deleted(b, id);
      }
    }
  }

  /** DELETE of an id that is not in the list changes nothing. */
  lemma {:induction false} DeleteAbsentIsIdentity(contents: seq<Content>, id: string)
    requires forall i :: 0 <= i < |contents| ==> contents[i].id != id
    ensures Deleted(contents, id) == contents
  {
    if contents != [] {
      DeleteAbsentIsIdentity(contents[1..], id);
    }
  }
}
