/**
 * SandboxObject: a drawable thing in the scene. Objects are only made by
 * createSandboxObject, which hands out ids from a counter that lives for the
 * whole program; a new object starts with no model, a zero colour and the
 * identity transform.
 */
module Objects {
  import opened Wrappers

  /** id_t is `unsigned int`, taken here to be 32 bits wide. */
  const IdLimit: int := 0x1_0000_0000
  type Id = x: int | 0 <= x < IdLimit

  datatype Vec2 = Vec2(x: real, y: real)
  datatype Vec4 = Vec4(x: real, y: real, z: real, w: real)

  /** Transform2DComponent with the defaults of its member initialisers. */
  datatype Transform2D = Transform2D(translation: Vec2, rotation: real, scale: Vec2)

  /** A shared handle to a loaded Model; the model itself is not part of this module. */
  datatype MeshRef = MeshRef(handle: nat)

  /**
   * `transform2D{ glm::vec2(0.0f, 0.0f) }`: aggregate initialisation that
   * gives the translation and leaves rotation and scale to their defaults.
   */
  const InitialTransform: Transform2D := Transform2D(Vec2(0.0, 0.0), 0.0, Vec2(1.0, 1.0))

  class SandboxObject {
    const id: Id
    var model: Option<MeshRef>
    var colour: Vec4
    var transform2D: Transform2D

    /** The private constructor: only the id is chosen by the caller. */
    constructor (uniqueId: Id)
      ensures id == uniqueId
      ensures model == None
      ensures colour == Vec4(0.0, 0.0, 0.0, 0.0)
      ensures transform2D.translation == Vec2(0.0, 0.0)
      ensures transform2D.rotation == 0.0
      ensures transform2D.scale == Vec2(1.0, 1.0)
    {
      id := uniqueId;
      model := None;
      colour := Vec4(0.0, 0.0, 0.0, 0.0);
      transform2D := InitialTransform;
    }

    /** The id given at construction; `id` is const, so this never changes. */
    function GetId(): (r: Id)
      ensures r == id
    {
      id
    }
  }

  /** `currentId++` on an unsigned 32-bit counter: one more, or back to 0 past the top. */
  function NextId(c: Id): (r: Id)
    ensures c < IdLimit - 1 ==> r == c + 1
    ensures c == IdLimit - 1 ==> r == 0
    ensures r != c
  {
    (c + 1) % IdLimit
  }

  /** The counter after `n` calls, starting from `start`. */
  function CounterAfter(start: Id, n: nat): (r: Id)
    ensures r == (start + n) % IdLimit
  {
    if n == 0 then start else NextId(CounterAfter(start, n - 1))
  }

  /** The ids that `n` successive calls return, starting from counter value `start`. */
  function IdsIssued(start: Id, n: nat): (r: seq<Id>)
    ensures |r| == n
    ensures forall k | 0 <= k < n :: r[k] == CounterAfter(start, k)
  {
    if n == 0 then [] else IdsIssued(start, n - 1) + [CounterAfter(start, n - 1)]
  }

  /**
   * The function-local `static id_t currentId` of createSandboxObject: one
   * counter shared by every call for the lifetime of the program.
   */
  class IdCounter {
    var currentId: Id

    /** The static's zero initialisation. */
    constructor ()
      ensures currentId == 0
    {
      currentId := 0;
    }

    /** `return SandboxObject(currentId++)`. */
    method CreateSandboxObject() returns (o: SandboxObject)
      modifies this
      ensures fresh(o)
      ensures o.GetId() == old(currentId)
      ensures currentId == NextId(old(currentId))
      ensures o.model == None && o.colour == Vec4(0.0, 0.0, 0.0, 0.0)
      ensures o.transform2D == Transform2D(Vec2(0.0, 0.0), 0.0, Vec2(1.0, 1.0))
    {
      o := new SandboxObject(currentId);
      currentId := NextId(currentId);
    }
  }

  /** Up to 2^32 successive calls never hand out the same id twice. */
  lemma {:induction false} IdsDistinct(start: Id, n: nat)
    requires n <= IdLimit
    ensures forall i, j | 0 <= i < j < n :: IdsIssued(start, n)[i] != IdsIssued(start, n)[j]
  {
  }

  /** Until the counter wraps, later calls get strictly larger ids. */
  lemma {:induction false} IdsIncreasing(start: Id, n: nat)
    requires start + n <= IdLimit
    ensures forall i, j | 0 <= i < j < n :: IdsIssued(start, n)[i] < IdsIssued(start, n)[j]
  {
    var r := IdsIssued(start, n);
    forall k | 0 <= k < n
      ensures r[k] == start + k
    {
      assert (start + k) % IdLimit == start + k;
    }
  }

  /** After 2^32 calls the counter is back where it started and the first id is handed out again. */
  lemma {:induction false} IdsRepeatAfterWrap(start: Id)
    ensures IdsIssued(start, IdLimit + 1)[IdLimit] == start
    ensures IdsIssued(start, IdLimit + 1)[0] == start
  {
    assert (start + IdLimit) % IdLimit == start;
  }
}
