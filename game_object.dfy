/**
 * Game objects: an identifier handed out by a counter that starts at 0 and steps by one,
 * a transform and colour, and optional model and point-light components that start out
 * absent.
 */
module GameObjects {
  import opened Wrappers
  import opened Vulkan

  /** A `glm::vec3`; float rounding is not modelled. */
  datatype Vec3 = Vec3(x: real, y: real, z: real)

  /** `VermicelliGameObject::id_t`, an `unsigned int`. */
  type id_t = u32

  datatype PointLightComponent = PointLightComponent(lightIntensity: real)

  class GameObject {
    /** The identifier fixed at construction; `getID` returns it and nothing can change it. */
    const id: id_t
    var color: Vec3
    var translation: Vec3
    var scale: Vec3
    var rotation: Vec3
    /** The shared model handle, when the object has a model. */
    var model: Option<Handle>
    var pointLight: Option<PointLightComponent>

    constructor (id: id_t)
      ensures this.id == id
      ensures color == Vec3(0.0, 0.0, 0.0) && translation == Vec3(0.0, 0.0, 0.0)
      ensures scale == Vec3(1.0, 1.0, 1.0) && rotation == Vec3(0.0, 0.0, 0.0)
      ensures model == None && pointLight == None
    {
      this.id := id;
      color, translation, rotation := Vec3(0.0, 0.0, 0.0), Vec3(0.0, 0.0, 0.0), Vec3(0.0, 0.0, 0.0);
      scale := Vec3(1.0, 1.0, 1.0);
      model, pointLight := None, None;
    }
  }

  /** The identifier the counter hands out `i` calls after it stood at `start`. */
  function IssuedId(start: u32, i: nat): (id: u32)
    ensures start + i < U32_MODULUS ==> id == start + i
  {
    (start + i) % U32_MODULUS
  }

  /** Each identifier is one more than the last, wrapping from `UINT32_MAX` to 0. */
  lemma IssuedIdsStep(start: u32, i: nat)
    ensures IssuedId(start, i + 1) == if IssuedId(start, i) == UINT32_MAX then 0 else IssuedId(start, i) + 1
  {
    var k := (start + i) / U32_MODULUS;
    assert start + i == k * U32_MODULUS + IssuedId(start, i);
    if IssuedId(start, i) == UINT32_MAX {
      assert start + i + 1 == (k + 1) * U32_MODULUS;
    } else {
      assert start + i + 1 == k * U32_MODULUS + (IssuedId(start, i) + 1);
    }
  }

  /** Fewer than 2^32 calls never hand out the same identifier twice. */
  lemma IssuedIdsDistinct(start: u32, i: nat, j: nat)
    requires i < j < U32_MODULUS
    ensures IssuedId(start, i) != IssuedId(start, j)
  {
    var a, b := (start + i) / U32_MODULUS, (start + j) / U32_MODULUS;
    assert start + i == a * U32_MODULUS + IssuedId(start, i);
    assert start + j == b * U32_MODULUS + IssuedId(start, j);
    assert b == a || b == a + 1;
  }

  /** The function-static `currentID` of `createGameObject`. */
  class IdCounter {
    var currentID: u32

    constructor ()
      ensures currentID == 0
    {
      currentID := 0;
    }

    /** A new object carrying the current identifier; the counter then steps by one. */
    method CreateGameObject() returns (obj: GameObject)
      modifies this
      ensures fresh(obj) && obj.id == old(currentID)
      ensures obj.model == None && obj.pointLight == None
      ensures currentID == IssuedId(old(currentID), 1)
    {
      obj := new GameObject(currentID);
      currentID := (currentID + 1) % U32_MODULUS;
    }

    /**
     * Creates `n` objects and emplaces each in a map under its `getID`; with fewer than
     * 2^32 of them no emplacement meets an existing key, so every object is kept.
     */
    method CreateObjects(n: nat) returns (created: seq<GameObject>, objects: map<u32, GameObject>)
      requires n <= U32_MODULUS
      modifies this
      ensures |created| == n
      ensures forall i :: 0 <= i < n ==> created[i].id == IssuedId(old(currentID), i)
      ensures forall i :: 0 <= i < n ==> IssuedId(old(currentID), i) in objects && objects[IssuedId(old(currentID), i)] == created[i]
      ensures forall k :: k in objects ==> exists i :: 0 <= i < n && k == IssuedId(old(currentID), i)
      ensures currentID == IssuedId(old(currentID), n)
    {
      ghost var start := currentID;
      created, objects := [], map[];
      var i := 0;
      while i < n
        invariant 0 <= i <= n
        invariant currentID == IssuedId(start, i)
        invariant |created| == i
        invariant forall j :: 0 <= j < i ==> created[j].id == IssuedId(start, j)
        invariant forall j :: 0 <= j < i ==> IssuedId(start, j) in objects && objects[IssuedId(start, j)] == created[j]
        invariant forall k :: k in objects ==> exists j :: 0 <= j < i && k == IssuedId(start, j)
      {
        IssuedIdsStep(start, i);
        var obj := CreateGameObject();
        forall j | 0 <= j < i
          ensures IssuedId(start, j) != obj.id
        {
          IssuedIdsDistinct(start, j, i);
        }
        objects := objects[obj.id := obj];
        created := created + [obj];
        i := i + 1;
      }
    }
  }
}
