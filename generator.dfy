/**
 * ToTsx: the generator run over its fixed allow-list of model structs, and
 * what the struct tables make of it.
 */
module Generator {
  import opened Wrappers
  import opened GoStd
  import opened Reflect
  import opened Extractor
  import opened Emitter
  import opened Translator
  import opened Driver
  import opened Models

  /**
   * ToTsx: every struct of the allow-list is translated and printed, in list
   * order, each block followed by a blank line; none of them panics.
   */
  method ToTsx() returns (out: string, failure: Option<Panic>)
    ensures failure == None
    ensures forall d :: d in AllowList() ==> StructTranslates(d)
    ensures out == Printed(BlocksOf(AllowList()))
  {
    out, failure := Run(AllowList());
    AllowListTranslates();
    TranslatingStructsRun(AllowList());
  }

  // ---------------------------------------------------------------------------
  // The types the models use

  /** A type that fmt prints readably and that has a translation. */
  predicate TypeOk(t: GoType) { WellFormed(t) && TranslateTyped(t).Ok? }

  /** A json tag that renames a field: non-empty, not "-", and without a comma. */
  predicate Renaming(tag: string) { tag != [] && tag != "-" && ',' !in tag }

  lemma BasicTypesOk()
    ensures TypeOk(Int) && TypeOk(Float64) && TypeOk(Str) && TypeOk(Bool)
    ensures TypeOk(Pointer(Int)) && TypeOk(Pointer(Float64)) && TypeOk(Pointer(Str))
  {
  }

  /** A struct of package model translates, and so does a slice of it or of pointers to it. */
  lemma ModelTypesOk(n: string)
    requires n != [] && forall c :: c in n ==> IsIdentChar(c)
    ensures TypeOk(Model(n)) && TypeOk(Slice(Model(n))) && TypeOk(Slice(Pointer(Model(n))))
  {
    assert forall c :: c in "model" ==> IsLower(c) by {
      assert "model" == ['m', 'o', 'd', 'e', 'l'];
    }
    assert Leaf(Pointer(Model(n))) == Model(n);
  }

  /** Point2f: the one struct type most models embed. */
  lemma PointTypeOk()
    ensures TypeOk(Model("Point2f"))
  {
    ModelTypesOk("Point2f");
  }

  lemma MapTypesOk()
    ensures TypeOk(Slice(Model("Building"))) && TypeOk(Slice(Model("MapNode"))) && TypeOk(Slice(Model("NodeEdge")))
  {
    ModelTypesOk("Building");
    ModelTypesOk("MapNode");
    ModelTypesOk("NodeEdge");
  }

  lemma FloorTypesOk()
    ensures TypeOk(Slice(Model("Room"))) && TypeOk(Slice(Model("Sensor")))
  {
    ModelTypesOk("Room");
    ModelTypesOk("Sensor");
  }

  lemma RoomTypesOk()
    ensures TypeOk(Slice(Model("Indent"))) && TypeOk(Slice(Model("Point2f")))
    ensures TypeOk(Slice(Pointer(Model("PairPoint2f")))) && TypeOk(Slice(Model("Entrance")))
  {
    ModelTypesOk("Indent");
    ModelTypesOk("Point2f");
    ModelTypesOk("PairPoint2f");
    ModelTypesOk("Entrance");
  }

  lemma DeletedAtOk()
    ensures TypeOk(Named("gorm", "DeletedAt"))
  {
    assert forall c :: c in "gorm" ==> IsLower(c) by {
      assert "gorm" == ['g', 'o', 'r', 'm'];
    }
  }

  lemma TaggedField(name: string, t: GoType, tag: string)
    requires Renaming(tag) && TypeOk(t)
    ensures Translatable(Field(name, t, tag))
  {
  }

  lemma UntaggedField(name: string, t: GoType)
    requires ',' !in name && TypeOk(t)
    ensures Translatable(Field(name, t, ""))
  {
  }

  // ---------------------------------------------------------------------------
  // Every emitted field of every allow-listed struct translates
  //
  // Each struct's fields are proved in groups of at most five (XFieldsHead,
  // XFieldsTail) and the nine structs are combined by NineTranslate over
  // parameters: each fact about a literal field table is costly for the
  // solver, so no single lemma sees more than a few of them. The split follows
  // the solver's budget, not anything in the generator.

  lemma Point2fFieldsTranslate()
    ensures forall f :: f in Point2f().fields ==> Translatable(f)
  {
    BasicTypesOk();
    TaggedField("X", Pointer(Float64), "x");
    TaggedField("Y", Pointer(Float64), "y");
  }

  lemma Point2fTranslates()
    ensures StructTranslates(Point2f())
  {
    Point2fFieldsTranslate();
    MembersTranslate(Point2f());
  }

  lemma MapFieldsHead()
    ensures Translatable(Field("Id", Int, "id"))
    ensures Translatable(Field("Password", Str, "password"))
    ensures Translatable(Field("Name", Str, "name"))
    ensures Translatable(Field("Buildings", Slice(Model("Building")), "buildings"))
  {
    BasicTypesOk();
    MapTypesOk();
    TaggedField("Id", Int, "id");
    TaggedField("Password", Str, "password");
    TaggedField("Name", Str, "name");
    TaggedField("Buildings", Slice(Model("Building")), "buildings");
  }

  lemma MapFieldsTail()
    ensures Translatable(Field("Nodes", Slice(Model("MapNode")), "nodes"))
    ensures Translatable(Field("Edges", Slice(Model("NodeEdge")), "edges"))
    ensures Translatable(Field("NorthAngle", Float64, "northAngle"))
    ensures Translatable(Field("Deleted", Named("gorm", "DeletedAt"), ""))
  {
    BasicTypesOk();
    MapTypesOk();
    DeletedAtOk();
    TaggedField("Nodes", Slice(Model("MapNode")), "nodes");
    TaggedField("Edges", Slice(Model("NodeEdge")), "edges");
    TaggedField("NorthAngle", Float64, "northAngle");
    UntaggedField("Deleted", Named("gorm", "DeletedAt"));
  }

  lemma MapFieldsTranslate()
    ensures forall f :: f in Map().fields && !Skipped(f) ==> Translatable(f)
  {
    MapFieldsHead();
    MapFieldsTail();
  }

  lemma MapTranslates()
    ensures StructTranslates(Map())
  {
    MapFieldsTranslate();
    MembersTranslate(Map());
  }

  lemma BuildingFieldsHead()
    ensures Translatable(Field("Id", Int, "id"))
    ensures Translatable(Field("MapId", Int, "mapId"))
    ensures Translatable(Field("BuildingName", Str, "buildingName"))
  {
    BasicTypesOk();
    TaggedField("Id", Int, "id");
    TaggedField("MapId", Int, "mapId");
    TaggedField("BuildingName", Str, "buildingName");
  }

  lemma BuildingFieldsTail()
    ensures Translatable(Field("Location", Model("Point2f"), "location"))
    ensures Translatable(Field("Floors", Slice(Model("Floor")), "floors"))
  {
    PointTypeOk();
    ModelTypesOk("Floor");
    TaggedField("Location", Model("Point2f"), "location");
    TaggedField("Floors", Slice(Model("Floor")), "floors");
  }

  lemma BuildingFieldsTranslate()
    ensures forall f :: f in Building().fields ==> Translatable(f)
  {
    BuildingFieldsHead();
    BuildingFieldsTail();
  }

  lemma BuildingTranslates()
    ensures StructTranslates(Building())
  {
    BuildingFieldsTranslate();
    MembersTranslate(Building());
  }

  lemma FloorFieldsHead()
    ensures Translatable(Field("Id", Int, "id"))
    ensures Translatable(Field("BuildingId", Int, "buildingId"))
    ensures Translatable(Field("FloorNumber", Pointer(Int), "floorNumber"))
    ensures Translatable(Field("FloorName", Str, "floorName"))
  {
    BasicTypesOk();
    TaggedField("Id", Int, "id");
    TaggedField("BuildingId", Int, "buildingId");
    TaggedField("FloorNumber", Pointer(Int), "floorNumber");
    TaggedField("FloorName", Str, "floorName");
  }

  lemma FloorFieldsTail()
    ensures Translatable(Field("Location", Model("Point2f"), "location"))
    ensures Translatable(Field("Rooms", Slice(Model("Room")), "rooms"))
    ensures Translatable(Field("Sensors", Slice(Model("Sensor")), "sensors"))
  {
    PointTypeOk();
    FloorTypesOk();
    TaggedField("Location", Model("Point2f"), "location");
    TaggedField("Rooms", Slice(Model("Room")), "rooms");
    TaggedField("Sensors", Slice(Model("Sensor")), "sensors");
  }

  lemma FloorFieldsTranslate()
    ensures forall f :: f in Floor().fields ==> Translatable(f)
  {
    FloorFieldsHead();
    FloorFieldsTail();
  }

  lemma FloorTranslates()
    ensures StructTranslates(Floor())
  {
    FloorFieldsTranslate();
    MembersTranslate(Floor());
  }

  lemma RoomFieldsHead()
    ensures Translatable(Field("Id", Int, "id"))
    ensures Translatable(Field("FloorId", Int, "floorId"))
    ensures Translatable(Field("Rotation", Pointer(Float64), "rotation"))
    ensures Translatable(Field("Name", Str, "name"))
    ensures Translatable(Field("Location", Model("Point2f"), "location"))
  {
    BasicTypesOk();
    PointTypeOk();
    TaggedField("Id", Int, "id");
    TaggedField("FloorId", Int, "floorId");
    TaggedField("Rotation", Pointer(Float64), "rotation");
    TaggedField("Name", Str, "name");
    TaggedField("Location", Model("Point2f"), "location");
  }

  lemma RoomFieldsTail()
    ensures Translatable(Field("Dimensions", Model("Point2f"), "dimensions"))
    ensures Translatable(Field("Indents", Slice(Model("Indent")), "indents"))
    ensures Translatable(Field("Polygon", Slice(Model("Point2f")), "polygon"))
    ensures Translatable(Field("Walls", Slice(Pointer(Model("PairPoint2f"))), "walls"))
    ensures Translatable(Field("Entrances", Slice(Model("Entrance")), "entrances"))
  {
    PointTypeOk();
    RoomTypesOk();
    TaggedField("Dimensions", Model("Point2f"), "dimensions");
    TaggedField("Indents", Slice(Model("Indent")), "indents");
    TaggedField("Polygon", Slice(Model("Point2f")), "polygon");
    TaggedField("Walls", Slice(Pointer(Model("PairPoint2f"))), "walls");
    TaggedField("Entrances", Slice(Model("Entrance")), "entrances");
  }

  lemma RoomFieldsTranslate()
    ensures forall f :: f in Room().fields ==> Translatable(f)
  {
    RoomFieldsHead();
    RoomFieldsTail();
  }

  lemma RoomTranslates()
    ensures StructTranslates(Room())
  {
    RoomFieldsTranslate();
    MembersTranslate(Room());
  }

  lemma IndentFieldsHead()
    ensures Translatable(Field("Id", Int, "id"))
    ensures Translatable(Field("RoomId", Int, "roomId"))
    ensures Translatable(Field("WallKeyA", Pointer(Str), "wallKeyA"))
    ensures Translatable(Field("WallKeyB", Pointer(Str), "wallKeyB"))
  {
    BasicTypesOk();
    TaggedField("Id", Int, "id");
    TaggedField("RoomId", Int, "roomId");
    TaggedField("WallKeyA", Pointer(Str), "wallKeyA");
    TaggedField("WallKeyB", Pointer(Str), "wallKeyB");
  }

  lemma IndentFieldsTail()
    ensures Translatable(Field("Location", Float64, "location"))
    ensures Translatable(Field("Dimensions", Model("Point2f"), "dimensions"))
  {
    BasicTypesOk();
    PointTypeOk();
    TaggedField("Location", Float64, "location");
    TaggedField("Dimensions", Model("Point2f"), "dimensions");
  }

  lemma IndentFieldsTranslate()
    ensures forall f :: f in Indent().fields ==> Translatable(f)
  {
    IndentFieldsHead();
    IndentFieldsTail();
  }

  lemma IndentTranslates()
    ensures StructTranslates(Indent())
  {
    IndentFieldsTranslate();
    MembersTranslate(Indent());
  }

  lemma SensorFieldsTranslate()
    ensures forall f :: f in Sensor().fields ==> Translatable(f)
  {
    BasicTypesOk();
    PointTypeOk();
    TaggedField("Id", Int, "id");
    TaggedField("SensorId", Str, "sensorId");
    TaggedField("FloorId", Int, "floorId");
    TaggedField("Location", Model("Point2f"), "location");
  }

  lemma SensorTranslates()
    ensures StructTranslates(Sensor())
  {
    SensorFieldsTranslate();
    MembersTranslate(Sensor());
  }

  lemma MapNodeFieldsHead()
    ensures Translatable(Field("Id", Int, "id"))
    ensures Translatable(Field("MapId", Int, "mapId"))
    ensures Translatable(Field("Location", Model("Point2f"), "location"))
  {
    BasicTypesOk();
    PointTypeOk();
    TaggedField("Id", Int, "id");
    TaggedField("MapId", Int, "mapId");
    TaggedField("Location", Model("Point2f"), "location");
  }

  lemma MapNodeFieldsTail()
    ensures Translatable(Field("RootNode", Bool, "rootNode"))
    ensures Translatable(Field("FloorIndex", Pointer(Int), "floorIndex"))
    ensures Translatable(Field("BiDirectional", Bool, "bidirectional"))
  {
    BasicTypesOk();
    TaggedField("RootNode", Bool, "rootNode");
    TaggedField("FloorIndex", Pointer(Int), "floorIndex");
    TaggedField("BiDirectional", Bool, "bidirectional");
  }

  lemma MapNodeFieldsTranslate()
    ensures forall f :: f in MapNode().fields ==> Translatable(f)
  {
    MapNodeFieldsHead();
    MapNodeFieldsTail();
  }

  lemma MapNodeTranslates()
    ensures StructTranslates(MapNode())
  {
    MapNodeFieldsTranslate();
    MembersTranslate(MapNode());
  }

  lemma NodeEdgeFieldsTranslate()
    ensures forall f :: f in NodeEdge().fields && !Skipped(f) ==> Translatable(f)
  {
    BasicTypesOk();
    TaggedField("Id", Int, "id");
    TaggedField("MapId", Int, "mapId");
    TaggedField("Node1Id", Int, "node1Id");
    TaggedField("Node2Id", Int, "node2Id");
  }

  lemma NodeEdgeTranslates()
    ensures StructTranslates(NodeEdge())
  {
    NodeEdgeFieldsTranslate();
    MembersTranslate(NodeEdge());
  }

  /** No struct of the allow-list has a field that panics. */
  lemma AllowListTranslates()
    ensures forall d :: d in AllowList() ==> StructTranslates(d)
  {
    Point2fTranslates();
    MapTranslates();
    BuildingTranslates();
    FloorTranslates();
    RoomTranslates();
    IndentTranslates();
    SensorTranslates();
    MapNodeTranslates();
    NodeEdgeTranslates();
    NineTranslate(Point2f(), Map(), Building(), Floor(), Room(), Indent(), Sensor(), MapNode(), NodeEdge());
  }

  lemma NineTranslate(a: StructDef, b: StructDef, c: StructDef, d: StructDef, e: StructDef,
                      f: StructDef, g: StructDef, h: StructDef, i: StructDef)
    requires StructTranslates(a) && StructTranslates(b) && StructTranslates(c)
    requires StructTranslates(d) && StructTranslates(e) && StructTranslates(f)
    requires StructTranslates(g) && StructTranslates(h) && StructTranslates(i)
    ensures forall x :: x in [a, b, c, d, e, f, g, h, i] ==> StructTranslates(x)
  {
  }

  // ---------------------------------------------------------------------------
  // What the tables make of particular fields

  /** NodeEdge emits four of its six fields: neither json:"-" node link. */
  lemma NodeEdgeDropsNodeLinks()
    ensures |Kept(NodeEdge().fields)| == 4
    ensures NodeEdge().fields[4] !in Kept(NodeEdge().fields)
    ensures NodeEdge().fields[5] !in Kept(NodeEdge().fields)
  {
    var fs := NodeEdge().fields;
    SkipCountStep(fs, 0);
    SkipCountStep(fs, 1);
    SkipCountStep(fs, 2);
    SkipCountStep(fs, 3);
    SkipCountStep(fs, 4);
    SkipCountStep(fs, 5);
    assert fs[..6] == fs;
    KeptCount(fs);
    KeptExactly(fs, fs[4]);
    KeptExactly(fs, fs[5]);
  }

  /** Map emits its untagged Deleted field but not Users, which is tagged json:"-". */
  lemma MapDropsUsers()
    ensures Map().fields[4] !in Kept(Map().fields)
    ensures Map().fields[8] in Kept(Map().fields)
  {
    var fs := Map().fields;
    KeptExactly(fs, fs[4]);
    KeptExactly(fs, fs[8]);
  }

  /** Map.Deleted has no json tag: it keeps its Go name and drops the gorm qualifier. */
  lemma MapDeletedKeepsGoName()
    ensures Translatable(Map().fields[8])
    ensures TsFieldOf(Map().fields[8]) == TsField("Deleted", "DeletedAt")
  {
    DeletedAtOk();
  }

  /** Room.Walls keeps the pointer star in its TypeScript type. */
  lemma RoomWallsKeepStar()
    ensures Translatable(Room().fields[8])
    ensures TsFieldOf(Room().fields[8]) == TsField("walls", "*PairPoint2f[]")
  {
    RoomTypesOk();
  }

  /** Point2f emits its two coordinates, in order, as numbers. */
  lemma Point2fLines()
    ensures StructTranslates(Point2f())
    ensures TsFieldsOf(Kept(Point2f().fields)) == [TsField("x", "number"), TsField("y", "number")]
  {
    Point2fTranslates();
    KeptAll(Point2f().fields);
  }

  /** The smallest declaration ToTsx prints: its header, one line per coordinate and the closing brace. */
  lemma Point2fBlock()
    ensures StructTranslates(Point2f())
    ensures BlockOf(Point2f()) == Header("Point2f") + FieldLine(TsField("x", "number")) + FieldLine(TsField("y", "number")) + "}"
  {
    Point2fLines();
    var x := TsField("x", "number");
    var y := TsField("y", "number");
    BodyStep([], x);
    BodyStep([x], y);
    assert [] + [x] == [x];
    assert [x] + [y] == [x, y];
  }

  /** The same block, character for character. */
  lemma Point2fText()
    ensures Header("Point2f") + FieldLine(TsField("x", "number")) + FieldLine(TsField("y", "number")) + "}"
         == "export type Point2f = {\n\tx: number\n\ty: number\n}"
  {
  }

  /**
   * The structs left off the allow-list are never declared, although Room's
   * Walls and Entrances refer to two of them.
   */
  lemma UnlistedNeverEmitted()
    ensures forall d :: d in AllowList() ==>
      d.name != "PairPoint2f" && d.name != "Pair2f" && d.name != "Entrance" && d.name != "Auth0User"
    ensures Room() in AllowList()
    ensures Room().fields[8].typ == Slice(Pointer(Model("PairPoint2f")))
    ensures Room().fields[9].typ == Slice(Model("Entrance"))
  {
    AllowListNames();
    RoomListed();
    RoomRefersToUnlisted();
  }

  lemma AllowListNames()
    ensures forall d :: d in AllowList() ==>
      d.name != "PairPoint2f" && d.name != "Pair2f" && d.name != "Entrance" && d.name != "Auth0User"
  {
  }

  lemma RoomListed()
    ensures Room() in AllowList()
  {
  }

  lemma RoomRefersToUnlisted()
    ensures Room().fields[8].typ == Slice(Pointer(Model("PairPoint2f")))
    ensures Room().fields[9].typ == Slice(Model("Entrance"))
  {
  }
}
