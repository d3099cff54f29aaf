/**
 * The model structs of package model as reflection sees them: each field's
 * name, its type as fmt prints it and its json tag, in declaration order.
 * gorm tags are not read by the generator and are not recorded.
 */
module Models {
  import opened Reflect

  /** A struct of this package, which reflect prints as model.<name>. */
  function Model(name: string): GoType { Named("model", name) }

  const Int := Basic("int")
  const Float64 := Basic("float64")
  const Str := Basic("string")
  const Bool := Basic("bool")

  function PairPoint2f(): StructDef
  {
    StructDef("PairPoint2f", [
      Field("First", Model("Point2f"), "fst"),
      Field("Second", Model("Point2f"), "snd")])
  }

  function Point2f(): StructDef
  {
    StructDef("Point2f", [
      Field("X", Pointer(Float64), "x"),
      Field("Y", Pointer(Float64), "y")])
  }

  function Pair2f(): StructDef
  {
    StructDef("Pair2f", [
      Field("First", Model("Point2f"), "first"),
      Field("Second", Model("Point2f"), "second")])
  }

  function MapNode(): StructDef
  {
    StructDef("MapNode", [
      Field("Id", Int, "id"),
      Field("MapId", Int, "mapId"),
      Field("Location", Model("Point2f"), "location"),
      Field("RootNode", Bool, "rootNode"),
      Field("FloorIndex", Pointer(Int), "floorIndex"),
      Field("BiDirectional", Bool, "bidirectional")])
  }

  function NodeEdge(): StructDef
  {
    StructDef("NodeEdge", [
      Field("Id", Int, "id"),
      Field("MapId", Int, "mapId"),
      Field("Node1Id", Int, "node1Id"),
      Field("Node2Id", Int, "node2Id"),
      Field("Node1", Pointer(Model("MapNode")), "-"),
      Field("Node2", Pointer(Model("MapNode")), "-")])
  }

  /** No field has a json key in its tag, so Tag.Get("json") is "" for each. */
  function Auth0User(): StructDef
  {
    StructDef("Auth0User", [
      Field("Id", Int, ""),
      Field("Authid", Str, ""),
      Field("Maps", Slice(Model("Map")), "")])
  }

  /** Deleted is untagged and has the type gorm.DeletedAt. */
  function Map(): StructDef
  {
    StructDef("Map", [
      Field("Id", Int, "id"),
      Field("Password", Str, "password"),
      Field("Name", Str, "name"),
      Field("Buildings", Slice(Model("Building")), "buildings"),
      Field("Users", Slice(Model("Auth0User")), "-"),
      Field("Nodes", Slice(Model("MapNode")), "nodes"),
      Field("Edges", Slice(Model("NodeEdge")), "edges"),
      Field("NorthAngle", Float64, "northAngle"),
      Field("Deleted", Named("gorm", "DeletedAt"), "")])
  }

  function Building(): StructDef
  {
    StructDef("Building", [
      Field("Id", Int, "id"),
      Field("MapId", Int, "mapId"),
      Field("BuildingName", Str, "buildingName"),
      Field("Location", Model("Point2f"), "location"),
      Field("Floors", Slice(Model("Floor")), "floors")])
  }

  /**
   * The tag of Sensors has no space before its gorm key; Tag.Get("json")
   * still finds json:"sensors".
   */
  function Floor(): StructDef
  {
    StructDef("Floor", [
      Field("Id", Int, "id"),
      Field("BuildingId", Int, "buildingId"),
      Field("FloorNumber", Pointer(Int), "floorNumber"),
      Field("FloorName", Str, "floorName"),
      Field("Location", Model("Point2f"), "location"),
      Field("Rooms", Slice(Model("Room")), "rooms"),
      Field("Sensors", Slice(Model("Sensor")), "sensors")])
  }

  function Sensor(): StructDef
  {
    StructDef("Sensor", [
      Field("Id", Int, "id"),
      Field("SensorId", Str, "sensorId"),
      Field("FloorId", Int, "floorId"),
      Field("Location", Model("Point2f"), "location")])
  }

  function Indent(): StructDef
  {
    StructDef("Indent", [
      Field("Id", Int, "id"),
      Field("RoomId", Int, "roomId"),
      Field("WallKeyA", Pointer(Str), "wallKeyA"),
      Field("WallKeyB", Pointer(Str), "wallKeyB"),
      Field("Location", Float64, "location"),
      Field("Dimensions", Model("Point2f"), "dimensions")])
  }

  function Entrance(): StructDef
  {
    StructDef("Entrance", [
      Field("Id", Int, "id"),
      Field("Start", Model("Point2f"), "start"),
      Field("End", Model("Point2f"), "end")])
  }

  function Room(): StructDef
  {
    StructDef("Room", [
      Field("Id", Int, "id"),
      Field("FloorId", Int, "floorId"),
      Field("Rotation", Pointer(Float64), "rotation"),
      Field("Name", Str, "name"),
      Field("Location", Model("Point2f"), "location"),
      Field("Dimensions", Model("Point2f"), "dimensions"),
      Field("Indents", Slice(Model("Indent")), "indents"),
      Field("Polygon", Slice(Model("Point2f")), "polygon"),
      Field("Walls", Slice(Pointer(Model("PairPoint2f"))), "walls"),
      Field("Entrances", Slice(Model("Entrance")), "entrances")])
  }

  /** The structs ToTsx generates declarations for, in its order. */
  function AllowList(): seq<StructDef>
  {
    [Point2f(), Map(), Building(), Floor(), Room(), Indent(), Sensor(), MapNode(), NodeEdge()]
  }
}
