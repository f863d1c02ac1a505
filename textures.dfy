/** The texture registry of the Textures module: a list of (id, name, texture)
    entries and a counter that issues ids. Image decoding and the backend
    texture objects are outside the model: a texture is an opaque handle that
    may be null, and the outcome of loading an image file is supplied by the
    caller. */
module TexturesModule {
  import opened Seqs

  /** Texture ids as handed out by the registry; 0 is never issued and is the
      answer of Load_Texture when the image cannot be read. */
  type TextureID = int

  /** An SDL_Texture pointer: null, or some backend texture. */
  datatype TexHandle = NullTexture | Handle(n: nat)

  /** One entry of the registry's texture list. */
  datatype Texture = Texture(id: TextureID, name: string, texture: TexHandle)

  /** What reading an image file yields: IMG_Load failed, or it produced a
      surface from which SDL_CreateTextureFromSurface made `created`
      (null when that second step failed). */
  datatype ImageLoad = SurfaceFailed | SurfaceLoaded(created: TexHandle)

  /** Index of the first entry whose id is `id`, or |list| when there is none. */
  function FindId(list: seq<Texture>, id: TextureID): (k: nat)
    ensures k <= |list|
    ensures k < |list| ==> list[k].id == id
    ensures forall j :: 0 <= j < k ==> list[j].id != id
  {
    if list == [] then 0
    else if list[0].id == id then 0
    else 1 + FindId(list[1..], id)
  }

  /** Index of the first entry whose name is `name`, or |list| when there is none. */
  function FindName(list: seq<Texture>, name: string): (k: nat)
    ensures k <= |list|
    ensures k < |list| ==> list[k].name == name
    ensures forall j :: 0 <= j < k ==> list[j].name != name
  {
    if list == [] then 0
    else if list[0].name == name then 0
    else 1 + FindName(list[1..], name)
  }

  /** What Get_Texture answers: the texture of the first entry with id `id`,
      null when no entry has that id. */
  function Lookup(list: seq<Texture>, id: TextureID): (t: TexHandle)
    ensures (forall j :: 0 <= j < |list| ==> list[j].id != id) ==> t == NullTexture
    ensures forall k :: 0 <= k < |list| && list[k].id == id ==>
      (forall j :: 0 <= j < k ==> list[j].id != id) ==> t == list[k].texture
  {
    var k := FindId(list, id);
    if k < |list| then list[k].texture else NullTexture
  }

  /** Ids strictly increase along the list (so no two entries share an id). */
  ghost predicate IdsIncreasing(list: seq<Texture>)
  {
    forall i, j :: 0 <= i < j < |list| ==> list[i].id < list[j].id
  }

  /** Every id in the list was issued by a counter now at `counter`. */
  ghost predicate IdsIssued(list: seq<Texture>, counter: int)
  {
    forall i :: 0 <= i < |list| ==> 0 < list[i].id <= counter
  }

  /** Appending an entry does not change where an earlier match is found, and
      the appended entry is found only when no earlier entry matches. */
  lemma {:induction false} FindIdAppend(list: seq<Texture>, e: Texture, id: TextureID)
    ensures FindId(list + [e], id) ==
      if FindId(list, id) < |list| then FindId(list, id)
      else if e.id == id then |list| else |list| + 1
  {
    if list != [] {
      assert (list + [e])[1..] == list[1..] + [e];
      FindIdAppend(list[1..], e, id);
    }
  }

  /** The same for lookups by name. */
  lemma {:induction false} FindNameAppend(list: seq<Texture>, e: Texture, name: string)
    ensures FindName(list + [e], name) ==
      if FindName(list, name) < |list| then FindName(list, name)
      else if e.name == name then |list| else |list| + 1
  {
    if list != [] {
      assert (list + [e])[1..] == list[1..] + [e];
      FindNameAppend(list[1..], e, name);
    }
  }

  /** After appending an entry whose id is new, Get_Texture on that id returns
      the appended texture (null included) and every other id is answered as
      before. */
  lemma LookupAppendFresh(list: seq<Texture>, e: Texture, id: TextureID)
    requires forall j :: 0 <= j < |list| ==> list[j].id != e.id
    ensures Lookup(list + [e], id) == if id == e.id then e.texture else Lookup(list, id)
  {
    FindIdAppend(list, e, id);
  }

  /** With unique ids, Get_Texture on an entry's id returns that entry's texture. */
  lemma LookupUnique(list: seq<Texture>, k: nat)
    requires IdsIncreasing(list) && k < |list|
    ensures Lookup(list, list[k].id) == list[k].texture
  {
    assert forall j :: 0 <= j < k ==> list[j].id != list[k].id;
  }

  /** Erasing an entry keeps the ids increasing. */
  lemma RemoveKeepsIncreasing(list: seq<Texture>, k: nat)
    requires IdsIncreasing(list)
    ensures IdsIncreasing(RemoveAt(list, k))
  {
    var r := RemoveAt(list, k);
    forall i, j | 0 <= i < j < |r| ensures r[i].id < r[j].id {
      var i' := if i < k then i else i + 1;
      var j' := if j < k then j else j + 1;
      assert r[i] == list[i'] && r[j] == list[j'];
    }
  }

  /** Erasing an entry keeps every remaining id issued. */
  lemma RemoveKeepsIssued(list: seq<Texture>, k: nat, counter: int)
    requires IdsIssued(list, counter)
    ensures IdsIssued(RemoveAt(list, k), counter)
  {
  }

  /** A linear search that stops at i (at a match, or at the end after
      passing only non-matching entries) stops where FindId says. */
  lemma FindIdIsFirst(list: seq<Texture>, id: TextureID, i: nat)
    requires i <= |list| && (i < |list| ==> list[i].id == id)
    requires forall j :: 0 <= j < i ==> list[j].id != id
    ensures FindId(list, id) == i
  {
  }

  /** Destroy_Texture by id on a registry with unique ids: afterwards that id is
      answered with null and every other id exactly as before. */
  lemma {:induction false} DestroyIdLookup(list: seq<Texture>, id: TextureID)
    requires IdsIncreasing(list)
    ensures forall other ::
      Lookup(RemoveAt(list, FindId(list, id)), other) == if other == id then NullTexture else Lookup(list, other)
  {
    var k := FindId(list, id);
    var r := RemoveAt(list, k);
    RemoveKeepsIncreasing(list, k);
    forall other ensures Lookup(r, other) == if other == id then NullTexture else Lookup(list, other) {
      if other == id {
        forall j | 0 <= j < |r| ensures r[j].id != id {
          if j < k { assert r[j] == list[j]; }
          else { assert r[j] == list[j + 1]; assert list[k].id < list[j + 1].id; }
        }
      } else {
        var m := FindId(list, other);
        if m < |list| {
          LookupUnique(list, m);
          assert m != k;
          var m' := if m < k then m else m - 1;
          assert r[m'] == list[m];
          LookupUnique(r, m');
        } else {
          forall j | 0 <= j < |r| ensures r[j].id != other {
            if j < k { assert r[j] == list[j]; } else { assert r[j] == list[j + 1]; }
          }
        }
      }
    }
  }

  /** The texture registry: `texture_list` and the id counter
      `number_of_textures`, both updated in place. */
  class Textures {
    var textureList: seq<Texture>
    var numberOfTextures: int

    /** Ids are positive, issued by the counter, and increase along the list. */
    ghost predicate Valid()
      reads this
    {
      0 <= numberOfTextures &&
      IdsIssued(textureList, numberOfTextures) &&
      IdsIncreasing(textureList)
    }

    constructor ()
      ensures Valid()
      ensures textureList == [] && numberOfTextures == 0
    {
      textureList := [];
      numberOfTextures := 0;
    }

    /** Get_Texture: linear search for the first entry with the given id. */
    method GetTexture(id: TextureID) returns (t: TexHandle)
      ensures t == Lookup(textureList, id)
    {
      var i := 0;
      while i < |textureList|
        invariant 0 <= i <= |textureList|
        invariant forall j :: 0 <= j < i ==> textureList[j].id != id
      {
        if textureList[i].id == id {
          return textureList[i].texture;
        }
        i := i + 1;
      }
      return NullTexture;
    }

    /** AddTexture: bump the counter and append an entry carrying the new
        counter value as its id. */
    method AddTexture(texture: TexHandle, name: string) returns (id: TextureID)
      requires Valid()
      modifies this
      ensures Valid()
      ensures numberOfTextures == old(numberOfTextures) + 1 && id == numberOfTextures
      ensures textureList == old(textureList) + [Texture(id, name, texture)]
      ensures forall j :: 0 <= j < |old(textureList)| ==> old(textureList)[j].id < id
      ensures Lookup(textureList, id) == texture
    {
      numberOfTextures := numberOfTextures + 1;
      var entry := Texture(numberOfTextures, name, texture);
      LookupAppendFresh(textureList, entry, numberOfTextures);
      textureList := textureList + [entry];
      id := entry.id;
    }

    /** Load_Texture: a path already in the list answers with its id and changes
        nothing; otherwise the image is read (outcome `load`): a failed read
        answers 0, a successful one registers a new entry, whose texture is null
        when the backend could not create it. */
    method LoadTexture(path: string, load: ImageLoad) returns (id: TextureID)
      requires Valid()
      modifies this
      ensures Valid()
      ensures numberOfTextures >= old(numberOfTextures)
      ensures FindName(old(textureList), path) < |old(textureList)| ==>
                id == old(textureList)[FindName(old(textureList), path)].id &&
                textureList == old(textureList) && numberOfTextures == old(numberOfTextures)
      ensures FindName(old(textureList), path) == |old(textureList)| && load.SurfaceFailed? ==>
                id == 0 && textureList == old(textureList) && numberOfTextures == old(numberOfTextures)
      ensures FindName(old(textureList), path) == |old(textureList)| && load.SurfaceLoaded? ==>
                id == old(numberOfTextures) + 1 && numberOfTextures == id &&
                textureList == old(textureList) + [Texture(id, path, load.created)] &&
                Lookup(textureList, id) == load.created
      ensures id == 0 <==> FindName(old(textureList), path) == |old(textureList)| && load.SurfaceFailed?
      ensures id != 0 ==> FindName(textureList, path) < |textureList| &&
                          textureList[FindName(textureList, path)].id == id
    {
      var i := 0;
      while i < |textureList|
        invariant 0 <= i <= |textureList|
        invariant forall j :: 0 <= j < i ==> textureList[j].name != path
      {
        if textureList[i].name == path {
          return textureList[i].id;
        }
        i := i + 1;
      }
      id := 0;
      match load {
        case SurfaceFailed =>
        case SurfaceLoaded(created) =>
          ghost var before := textureList;
          id := AddTexture(created, path);
          FindNameAppend(before, Texture(id, path, created), path);
      }
    }

    /** Destroy_Texture by name: erase the first entry with that name. */
    method DestroyTextureByName(name: string)
      requires Valid()
      modifies this
      ensures Valid()
      ensures numberOfTextures == old(numberOfTextures)
      ensures textureList == RemoveAt(old(textureList), FindName(old(textureList), name))
    {
      var i := 0;
      while i < |textureList|
        invariant 0 <= i <= |textureList|
        invariant forall j :: 0 <= j < i ==> textureList[j].name != name
      {
        if textureList[i].name == name {
          RemoveKeepsIncreasing(textureList, i);
          RemoveKeepsIssued(textureList, i, numberOfTextures);
          textureList := RemoveAt(textureList, i);
          return;
        }
        i := i + 1;
      }
    }

    /** Destroy_Texture by id: erase the first entry with that id; afterwards
        that id is unknown and every other id resolves as before. */
    method DestroyTextureById(id: TextureID)
      requires Valid()
      modifies this
      ensures Valid()
      ensures numberOfTextures == old(numberOfTextures)
      ensures textureList == RemoveAt(old(textureList), FindId(old(textureList), id))
      ensures forall other ::
        Lookup(textureList, other) == if other == id then NullTexture else Lookup(old(textureList), other)
    {
      ghost var before := textureList;
      DestroyIdLookup(before, id);
      var i := 0;
      while i < |textureList|
        invariant 0 <= i <= |textureList|
        invariant forall j :: 0 <= j < i ==> textureList[j].id != id
      {
        if textureList[i].id == id {
          FindIdIsFirst(textureList, id, i);
          RemoveKeepsIncreasing(textureList, i);
          RemoveKeepsIssued(textureList, i, numberOfTextures);
          textureList := RemoveAt(textureList, i);
          return;
        }
        i := i + 1;
      }
      FindIdIsFirst(textureList, id, i);
    }

    /** CleanUp: empty the list; the counter keeps its value, so ids issued
        later are still new. */
    method CleanUp() returns (ok: bool)
      requires Valid()
      modifies this
      ensures Valid()
      ensures ok
      ensures textureList == [] && numberOfTextures == old(numberOfTextures)
    {
      textureList := [];
      ok := true;
    }
  }
}
