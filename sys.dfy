/**
 * The flat value structs of the kernel's C interface (manifold3d_sys), as the binding sees them:
 * two and three `f64` fields in declaration order.
 */
module Sys {

  datatype ManifoldVec2 = ManifoldVec2(x: real, y: real)

  datatype ManifoldVec3 = ManifoldVec3(x: real, y: real, z: real)
}
