/**
 * The point-light system: each frame, `update` rotates every light-bearing object and packs
 * its position and colour into the next slot of the global uniform buffer's fixed light
 * array, and `render` issues one small billboard draw per light.
 *
 * Both walk the frame's `GameObject::Map`; only the objects are used, never the keys, so the
 * map is passed as the sequence of its objects in the map's iteration order. The map holds
 * its objects by value, so no object appears twice.
 */
module PointLightSystem {
  import opened Wrappers
  import opened GameObjects

  /** The number of slots in `GlobalUbo::pointLights`. */
  const MAX_LIGHTS: nat := 20

  /** A `glm::vec4` built from a `vec3` and a fourth component. */
  datatype Vec4 = Vec4(xyz: Vec3, w: real)

  /** A `glm::mat4`, as its four columns. */
  datatype Mat4 = Mat4(c0: Vec4, c1: Vec4, c2: Vec4, c3: Vec4)

  /** `glm::vec3(m * glm::vec4(p, 1.0f))`: the point `p` moved by `m`. */
  function Transform(m: Mat4, p: Vec3): Vec3
  {
    Vec3(m.c0.xyz.x * p.x + m.c1.xyz.x * p.y + m.c2.xyz.x * p.z + m.c3.xyz.x,
         m.c0.xyz.y * p.x + m.c1.xyz.y * p.y + m.c2.xyz.y * p.z + m.c3.xyz.y,
         m.c0.xyz.z * p.x + m.c1.xyz.z * p.y + m.c2.xyz.z * p.z + m.c3.xyz.z)
  }

  /** Position (w is 1) and colour (w is the intensity) of one light as the shaders read them. */
  datatype PointLight = PointLight(position: Vec4, color: Vec4)

  /** The push constants of one light and its draw call: vertex and instance counts. */
  datatype LightDraw = LightDraw(position: Vec4, color: Vec4, radius: real, vertexCount: nat, instanceCount: nat)

  /** The light array and count of the global uniform buffer; its matrices are not modelled. */
  class GlobalUbo {
    const pointLights: array<PointLight>
    var numLights: int

    constructor ()
      ensures pointLights.Length == MAX_LIGHTS && fresh(pointLights)
      ensures forall i :: 0 <= i < MAX_LIGHTS ==> pointLights[i] == PointLight(Vec4(Vec3(0.0, 0.0, 0.0), 0.0), Vec4(Vec3(0.0, 0.0, 0.0), 0.0))
      ensures numLights == 0
    {
      pointLights := new PointLight[MAX_LIGHTS](_ => PointLight(Vec4(Vec3(0.0, 0.0, 0.0), 0.0), Vec4(Vec3(0.0, 0.0, 0.0), 0.0)));
      numLights := 0;
    }
  }

  /** What the two systems read of one object: its translation, scale, colour and light component. */
  datatype View = View(translation: Vec3, scale: Vec3, color: Vec3, pointLight: Option<PointLightComponent>)

  /** `view` is what `obj` holds now. */
  ghost predicate Shows(view: View, obj: GameObject)
    reads obj
  {
    view == View(obj.translation, obj.scale, obj.color, obj.pointLight)
  }

  /** What each object of the sequence holds now. */
  function Views(objects: seq<GameObject>): (r: seq<View>)
    reads set o | o in objects
    ensures |r| == |objects| && forall j :: 0 <= j < |objects| ==> Shows(r[j], objects[j])
  {
    seq(|objects|, j requires 0 <= j < |objects| reads objects =>
      View(objects[j].translation, objects[j].scale, objects[j].color, objects[j].pointLight))
  }

  /** The positions, in iteration order, of the objects that carry a point light. */
  function LightIndices(views: seq<View>): (r: seq<nat>)
    ensures |r| <= |views|
  {
    if views == [] then []
    else
      var rest := LightIndices(views[..|views| - 1]);
      if views[|views| - 1].pointLight.Some? then rest + [|views| - 1] else rest
  }

  /** Every listed position is inside the sequence and carries a light. */
  lemma {:induction false} LightIndicesBelow(views: seq<View>)
    ensures forall k :: 0 <= k < |LightIndices(views)| ==>
      LightIndices(views)[k] < |views| && views[LightIndices(views)[k]].pointLight.Some?
    decreases |views|
  {
    if views != [] {
      LightIndicesBelow(views[..|views| - 1]);
    }
  }

  /** A position is listed exactly when the object there carries a light. */
  lemma {:induction false} LightIndicesMembers(views: seq<View>, j: nat)
    ensures j in LightIndices(views) <==> j < |views| && views[j].pointLight.Some?
    decreases |views|
  {
    if views != [] {
      var shorter := views[..|views| - 1];
      LightIndicesMembers(shorter, j);
      LightIndicesBelow(shorter);
    }
  }

  /** The positions keep the iteration order: each is after the one before it. */
  lemma {:induction false} LightIndicesIncreasing(views: seq<View>)
    ensures forall a, b :: 0 <= a < b < |LightIndices(views)| ==> LightIndices(views)[a] < LightIndices(views)[b]
    decreases |views|
  {
    if views != [] {
      var shorter := views[..|views| - 1];
      LightIndicesIncreasing(shorter);
      LightIndicesBelow(shorter);
    }
  }

  /** A prefix of the objects has no more lights than the whole. */
  lemma {:induction false} LightIndicesPrefix(views: seq<View>, n: nat)
    requires n <= |views|
    ensures |LightIndices(views[..n])| <= |LightIndices(views)|
    decreases |views| - n
  {
    if n < |views| {
      var shorter := views[..|views| - 1];
      assert shorter[..n] == views[..n];
      LightIndicesPrefix(shorter, n);
    } else {
      assert views[..n] == views;
    }
  }

  /** The slot written for a light at `position` with colour `color`. */
  function Slot(position: Vec3, color: Vec3, light: PointLightComponent): PointLight
  {
    PointLight(Vec4(position, 1.0), Vec4(color, light.lightIntensity))
  }

  /** The slot written for the light-bearing object `view` once `m` has moved it. */
  function SlotOf(view: View, m: Mat4): PointLight
    requires view.pointLight.Some?
  {
    Slot(Transform(m, view.translation), view.color, view.pointLight.value)
  }

  /** The slots `update` fills: one per light-bearing object, in iteration order. */
  function Packed(views: seq<View>, m: Mat4): (r: seq<PointLight>)
    ensures |r| == |LightIndices(views)|
  {
    if views == [] then []
    else
      var v := views[|views| - 1];
      Packed(views[..|views| - 1], m) + if v.pointLight.Some? then [SlotOf(v, m)] else []
  }

  /** Slot `k` holds the `k`th light-bearing object, moved, with its colour and intensity. */
  lemma {:induction false} PackedSlots(views: seq<View>, m: Mat4, k: nat)
    requires k < |LightIndices(views)|
    ensures LightIndices(views)[k] < |views| && views[LightIndices(views)[k]].pointLight.Some?
    ensures Packed(views, m)[k] == SlotOf(views[LightIndices(views)[k]], m)
    decreases |views|
  {
    var shorter := views[..|views| - 1];
    LightIndicesBelow(views);
    if k < |LightIndices(shorter)| {
      PackedSlots(shorter, m, k);
    }
  }

  lemma PackedAppend(views: seq<View>, i: nat, m: Mat4)
    requires i < |views|
    ensures Packed(views[..i + 1], m) == Packed(views[..i], m) + if views[i].pointLight.Some? then [SlotOf(views[i], m)] else []
  {
    assert views[..i + 1][..i] == views[..i];
  }

  /** Writing the slot just after the filled ones extends them by one and drops one unfilled slot. */
  lemma WriteNext<T>(done: seq<T>, rest: seq<T>, x: T)
    requires rest != []
    ensures (done + rest)[|done| := x] == (done + [x]) + rest[1..]
  {
  }

  /**
   * One pass of `update`'s loop, for the object at position `i`: when it carries a light, its
   * translation is moved by `rotateLight` and the slot after the filled ones receives it.
   */
  method PackLight(objects: seq<GameObject>, ghost before: seq<View>, i: nat, rotateLight: Mat4,
                   pointLights: array<PointLight>, lightIndex: nat, ghost initial: seq<PointLight>)
    returns (next: nat)
    requires i < |objects| == |before| && |initial| == pointLights.Length
    requires |LightIndices(before)| <= pointLights.Length
    requires lightIndex == |LightIndices(before[..i])|
    requires lightIndex <= |initial|
    requires pointLights[..] == Packed(before[..i], rotateLight) + initial[lightIndex..]
    requires Shows(before[i], objects[i])
    modifies {objects[i]}`translation, pointLights
    ensures next == |LightIndices(before[..i + 1])| <= pointLights.Length
    ensures pointLights[..] == Packed(before[..i + 1], rotateLight) + initial[next..]
    ensures objects[i].translation
      == if before[i].pointLight.Some? then Transform(rotateLight, before[i].translation) else before[i].translation
  {
    var obj := objects[i];
    PackedAppend(before, i, rotateLight);
    LightIndicesPrefix(before, i + 1);
    next := lightIndex;
    if obj.pointLight.Some? {
      ghost var done := Packed(before[..i], rotateLight);
      obj.translation := Transform(rotateLight, obj.translation);
      pointLights[lightIndex] := Slot(obj.translation, obj.color, obj.pointLight.value);
      WriteNext(done, initial[lightIndex..], SlotOf(before[i], rotateLight));
      assert initial[lightIndex..][1..] == initial[lightIndex + 1..];
      next := lightIndex + 1;
    }
  }

  /**
   * `update`'s loop: moves each light-bearing object's translation by `rotateLight` and writes
   * it with the object's colour and intensity into the next slot; `before` is what the
   * objects hold on entry. The slots after the last one written keep their old content.
   */
  method PackLights(objects: seq<GameObject>, rotateLight: Mat4, pointLights: array<PointLight>, ghost before: seq<View>)
    returns (lightIndex: nat)
    requires forall a, b :: 0 <= a < b < |objects| ==> objects[a] != objects[b]
    requires |before| == |objects| && forall j :: 0 <= j < |objects| ==> Shows(before[j], objects[j])
    requires |LightIndices(before)| <= pointLights.Length
    modifies pointLights, (set o | o in objects)`translation
    ensures lightIndex == |LightIndices(before)|
    ensures pointLights[..] == Packed(before, rotateLight) + old(pointLights[..])[lightIndex..]
    ensures forall j :: 0 <= j < |objects| ==>
      objects[j].translation == if before[j].pointLight.Some? then Transform(rotateLight, before[j].translation) else before[j].translation
  {
    ghost var initial := pointLights[..];
    lightIndex := 0;
    var i := 0;
    while i < |objects|
      invariant 0 <= i <= |objects|
      invariant lightIndex == |LightIndices(before[..i])| <= pointLights.Length
      invariant pointLights[..] == Packed(before[..i], rotateLight) + initial[lightIndex..]
      invariant forall j :: 0 <= j < |objects| ==>
        objects[j].pointLight == before[j].pointLight && objects[j].color == before[j].color && objects[j].scale == before[j].scale
      invariant forall j :: 0 <= j < |objects| ==>
        objects[j].translation == if j < i && before[j].pointLight.Some? then Transform(rotateLight, before[j].translation) else before[j].translation
    {
      lightIndex := PackLight(objects, before, i, rotateLight, pointLights, lightIndex, initial);
      i := i + 1;
    }
    assert before[..i] == before;
  }

  /**
   * `update`: packs the lights (the rotation by the frame time about the vertical axis is
   * `rotateLight`) and stores their number. Every write asserts a free slot, so at most
   * `MAX_LIGHTS` objects may carry a light.
   */
  method Update(objects: seq<GameObject>, rotateLight: Mat4, ubo: GlobalUbo, ghost before: seq<View>)
    requires forall a, b :: 0 <= a < b < |objects| ==> objects[a] != objects[b]
    requires |before| == |objects| && forall j :: 0 <= j < |objects| ==> Shows(before[j], objects[j])
    requires ubo.pointLights.Length == MAX_LIGHTS
    requires |LightIndices(before)| <= MAX_LIGHTS
    modifies ubo`numLights, ubo.pointLights, (set o | o in objects)`translation
    ensures ubo.numLights == |LightIndices(before)|
    ensures ubo.pointLights[..] == Packed(before, rotateLight) + old(ubo.pointLights[..])[ubo.numLights..]
    ensures forall j :: 0 <= j < |objects| ==>
      objects[j].translation == if before[j].pointLight.Some? then Transform(rotateLight, before[j].translation) else before[j].translation
  {
    var lightIndex := PackLights(objects, rotateLight, ubo.pointLights, before);
    ubo.numLights := lightIndex;
  }

  /** The push constants of the light-bearing object `view` and its 6-vertex, 1-instance draw. */
  function DrawOf(view: View): LightDraw
    requires view.pointLight.Some?
  {
    LightDraw(Vec4(view.translation, 1.0), Vec4(view.color, view.pointLight.value.lightIntensity), view.scale.x, 6, 1)
  }

  /** The draws `render` issues: one per light-bearing object, in iteration order. */
  function Draws(views: seq<View>): (r: seq<LightDraw>)
    ensures |r| == |LightIndices(views)|
  {
    if views == [] then []
    else
      var v := views[|views| - 1];
      Draws(views[..|views| - 1]) + if v.pointLight.Some? then [DrawOf(v)] else []
  }

  /** Draw `k` is that of the `k`th light-bearing object. */
  lemma {:induction false} DrawsOfLights(views: seq<View>, k: nat)
    requires k < |LightIndices(views)|
    ensures LightIndices(views)[k] < |views| && views[LightIndices(views)[k]].pointLight.Some?
    ensures Draws(views)[k] == DrawOf(views[LightIndices(views)[k]])
    decreases |views|
  {
    var shorter := views[..|views| - 1];
    LightIndicesBelow(views);
    if k < |LightIndices(shorter)| {
      DrawsOfLights(shorter, k);
    }
  }

  /**
   * `render`: one push-constant block and one 6-vertex draw per light-bearing object, in
   * iteration order, and nothing for the other objects.
   */
  method Render(objects: seq<GameObject>) returns (draws: seq<LightDraw>)
    ensures draws == Draws(Views(objects))
  {
    ghost var views := Views(objects);
    draws := [];
    var i := 0;
    while i < |objects|
      invariant 0 <= i <= |objects|
      invariant draws == Draws(views[..i])
    {
      var obj := objects[i];
      assert views[..i + 1][..i] == views[..i];
      if obj.pointLight.Some? {
        draws := draws + [LightDraw(Vec4(obj.translation, 1.0), Vec4(obj.color, obj.pointLight.value.lightIntensity), obj.scale.x, 6, 1)];
      }
      i := i + 1;
    }
    assert views[..i] == views;
  }
}
