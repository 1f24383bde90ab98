/**
 * The messages between the tile coordinator and its workers
 * (src/tile-manager/types.ts). Geometry payloads are not modelled: a data
 * reply carries only the request it answers.
 */
module Messages {
  import opened Interfaces

  /** Posted by a tile worker to the coordinator. */
  datatype WorkerMessage =
    | Status(idle: bool)
    | Data(request: TileRequest)
    | Remove(key: Vec3)

  /** Posted by the coordinator to a tile worker. */
  datatype CoordinatorMessage =
    | Request(request: TileRequest)
    | Position(pos: Vec3)

  /**
   * `${request.position}`: the position printed as "x,y,z". Distinct finite
   * numbers print differently, so the position itself serves as the key.
   */
  function KeyOf(request: TileRequest): Vec3 {
    request.position
  }
}
