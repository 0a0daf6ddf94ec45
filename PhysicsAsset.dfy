/** The data of a physics asset, shared by the mesh that generates one and
    the editor that changes one (BodySetup.h, AggregateGeometry.h and
    ConstraintInstance.h under Mundi/Source/Runtime/Engine/Physics): body
    setups with their collision shapes, and the constraints between bones.
    Lengths, masses and angles are reals; joint frames (positions and
    rotations, all zero by default) are not modelled. */
module PhysicsAsset {
  import opened Text

  datatype FKSphereElem = FKSphereElem(Radius: real)
  datatype FKBoxElem = FKBoxElem(X: real, Y: real, Z: real)
  datatype FKSphylElem = FKSphylElem(Radius: real, Length: real)

  /** The shapes of one body; convex elements are only counted. */
  datatype FKAggregateGeom = FKAggregateGeom(
    SphereElems: seq<FKSphereElem>,
    BoxElems: seq<FKBoxElem>,
    SphylElems: seq<FKSphylElem>,
    ConvexElemCount: nat)

  const EmptyGeom := FKAggregateGeom([], [], [], 0)

  datatype UBodySetup = UBodySetup(
    BoneName: string,
    AggGeom: FKAggregateGeom,
    MassInKg: real,
    LinearDamping: real,
    AngularDamping: real)

  datatype ELinearConstraintMotion = LinearFree | LinearLimited | LinearLocked
  datatype EAngularConstraintMotion = AngularFree | AngularLimited | AngularLocked

  /** `FConstraintInstance` as stored in an asset: the two bones it joins
      and its limits. ConstraintInstance.h:40-44 documents `ConstraintBone1`
      as the child and `ConstraintBone2` as the parent. */
  datatype FConstraintInstance = FConstraintInstance(
    ConstraintBone1: string,
    ConstraintBone2: string,
    LinearXMotion: ELinearConstraintMotion,
    LinearYMotion: ELinearConstraintMotion,
    LinearZMotion: ELinearConstraintMotion,
    LinearLimit: real,
    TwistMotion: EAngularConstraintMotion,
    Swing1Motion: EAngularConstraintMotion,
    Swing2Motion: EAngularConstraintMotion,
    TwistLimitAngle: real,
    Swing1LimitAngle: real,
    Swing2LimitAngle: real,
    bDisableCollision: bool)

  /** A default-constructed constraint between two bones: linear motion
      locked, angular motion limited to 45 degrees on every axis, and no
      collision between the joined bodies. */
  function NewConstraint(bone1: string, bone2: string): (r: FConstraintInstance)
    ensures r.ConstraintBone1 == bone1 && r.ConstraintBone2 == bone2
    ensures r.LinearXMotion == r.LinearYMotion == r.LinearZMotion == LinearLocked && r.LinearLimit == 0.0
    ensures r.TwistMotion == r.Swing1Motion == r.Swing2Motion == AngularLimited
    ensures r.TwistLimitAngle == r.Swing1LimitAngle == r.Swing2LimitAngle == 45.0
    ensures r.bDisableCollision
  {
    FConstraintInstance(bone1, bone2, LinearLocked, LinearLocked, LinearLocked, 0.0,
                        AngularLimited, AngularLimited, AngularLimited, 45.0, 45.0, 45.0, true)
  }

  /** The roles `FConstraintInstance::InitConstraint` gives the two bones
      of a constraint when `USkeletalMeshComponent::CreateConstraints`
      builds its joint: the body found for `ConstraintBone1` is passed as
      `Body1`, which InitConstraint takes as the child (the joint is placed
      at its origin), and the body for `ConstraintBone2` as `Body2`, the
      parent. */
  datatype JointRoles = JointRoles(Child: string, Parent: string)

  function JointRolesOf(c: FConstraintInstance): JointRoles
  {
    JointRoles(c.ConstraintBone1, c.ConstraintBone2)
  }

  /** A physics asset: its body setups (any may be missing) and its
      constraints. */
  datatype UPhysicsAsset = UPhysicsAsset(Bodies: seq<Option<UBodySetup>>, Constraints: seq<FConstraintInstance>)
}
