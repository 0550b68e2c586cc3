/**
 * The Spring Boot project generator: the map from file path to file content that
 * `generateFiles` builds from the diagram nodes (three fixed files, then four files
 * per node, a later node overwriting an earlier one with the same class name), and
 * the naming and type rules the JPA entity template uses.
 */
module Spring {
  import opened Wrappers
  import opened Text
  import opened DiagramTypes
  import Relations

  // ---------------------------------------------------------------------------
  // Names
  // ---------------------------------------------------------------------------

  /** `formatClassName`: the first character upper-cased, the rest kept; "" stays "". */
  function FormatClassName(name: string): (r: string)
    ensures |r| == |name|
    ensures name != [] ==> r[0] == UpperChar(name[0]) && r[1..] == name[1..]
    ensures name != [] ==> !IsAsciiLower(r[0])
  {
    if name == [] then "" else [UpperChar(name[0])] + name[1..]
  }

  lemma FormatClassNameIdempotent(name: string)
    ensures FormatClassName(FormatClassName(name)) == FormatClassName(name)
  {
  }

  /**
   * The relation generator derives field names with a lower-cased first character;
   * starting it from the generated class name or from the node name gives the same
   * field name, and capitalising that field name gives the class name back.
   */
  lemma FieldAndClassNamesAgree(name: string)
    ensures Relations.FormatFieldName(FormatClassName(name)) == Relations.FormatFieldName(name)
    ensures FormatClassName(Relations.FormatFieldName(name)) == FormatClassName(name)
  {
  }

  /**
   * `replace(/([a-z])([A-Z])/g, '$1_$2')`, as the regular-expression engine scans:
   * at a match both characters are consumed and the scan resumes after them.
   */
  function InsertUnderscores(s: string): (r: string)
    ensures |r| >= |s|
  {
    if |s| < 2 then s
    else if IsAsciiLower(s[0]) && IsAsciiUpper(s[1]) then [s[0], '_', s[1]] + InsertUnderscores(s[2..])
    else [s[0]] + InsertUnderscores(s[1..])
  }

  /** Reference reading: one underscore between every lower-case letter and an upper-case letter right after it. */
  function Separated(s: string): string
  {
    if s == [] then []
    else if |s| >= 2 && IsAsciiLower(s[0]) && IsAsciiUpper(s[1]) then [s[0], '_'] + Separated(s[1..])
    else [s[0]] + Separated(s[1..])
  }

  /** Resuming the scan after a match misses no boundary: an upper-case letter never starts a match. */
  lemma {:induction false} ScanFindsEveryBoundary(s: string)
    ensures InsertUnderscores(s) == Separated(s)
  {
    if |s| < 2 {
    } else if IsAsciiLower(s[0]) && IsAsciiUpper(s[1]) {
      ScanFindsEveryBoundary(s[2..]);
      assert s[1..][1..] == s[2..];
      assert Separated(s[1..]) == [s[1]] + Separated(s[2..]);
    } else {
      ScanFindsEveryBoundary(s[1..]);
    }
  }

  /** `formatTableName` / `formatColumnName`: camelCase and PascalCase to snake_case. */
  function SnakeCase(name: string): (r: string)
    ensures NoAsciiUpper(r)
    ensures |r| >= |name|
    ensures r == Lower(Separated(name))
  {
    ScanFindsEveryBoundary(name);
    LowerHasNoUpper(InsertUnderscores(name));
    Lower(InsertUnderscores(name))
  }

  /** `s` without its underscores. */
  function DropUnderscores(s: string): (r: string)
    ensures '_' !in r
  {
    if s == [] then [] else (if s[0] == '_' then [] else [s[0]]) + DropUnderscores(s[1..])
  }

  lemma {:induction false} DropUnderscoresConcat(a: string, b: string)
    ensures DropUnderscores(a + b) == DropUnderscores(a) + DropUnderscores(b)
  {
    if a == [] {
      assert a + b == b;
    } else {
      assert (a + b)[1..] == a[1..] + b;
      DropUnderscoresConcat(a[1..], b);
    }
  }

  lemma {:induction false} InsertUnderscoresOnlyAddsUnderscores(s: string)
    ensures DropUnderscores(InsertUnderscores(s)) == DropUnderscores(s)
  {
    if |s| < 2 {
    } else if IsAsciiLower(s[0]) && IsAsciiUpper(s[1]) {
      InsertUnderscoresOnlyAddsUnderscores(s[2..]);
      DropUnderscoresConcat([s[0], '_', s[1]], InsertUnderscores(s[2..]));
      assert DropUnderscores([s[0], '_', s[1]]) == [s[0], s[1]] by {
        assert [s[0], '_', s[1]][1..] == ['_', s[1]];
        assert ['_', s[1]][1..] == [s[1]];
        assert DropUnderscores([s[1]]) == [s[1]] by {
          assert [s[1]][1..] == [];
        }
      }
      assert s == [s[0], s[1]] + s[2..];
      DropUnderscoresConcat([s[0], s[1]], s[2..]);
      assert [s[0], s[1]][1..] == [s[1]];
    } else {
      InsertUnderscoresOnlyAddsUnderscores(s[1..]);
      DropUnderscoresConcat([s[0]], InsertUnderscores(s[1..]));
      assert s == [s[0]] + s[1..];
      DropUnderscoresConcat([s[0]], s[1..]);
    }
  }

  lemma {:induction false} LowerKeepsUnderscores(s: string)
    ensures DropUnderscores(Lower(s)) == Lower(DropUnderscores(s))
  {
    if s != [] {
      LowerKeepsUnderscores(s[1..]);
      assert Lower(s) == [LowerChar(s[0])] + Lower(s[1..]);
      LowerConcat(if s[0] == '_' then [] else [s[0]], DropUnderscores(s[1..]));
    }
  }

  /**
   * Deleting the underscores of a snake_case name gives the lower-cased name with
   * its own underscores deleted: the conversion only inserts underscores and lower-cases.
   */
  lemma SnakeCaseRoundTrip(name: string)
    ensures DropUnderscores(SnakeCase(name)) == Lower(DropUnderscores(name))
    ensures '_' !in name ==> DropUnderscores(SnakeCase(name)) == Lower(name)
  {
    LowerKeepsUnderscores(InsertUnderscores(name));
    InsertUnderscoresOnlyAddsUnderscores(name);
    if '_' !in name {
      NoUnderscoreUnchanged(name);
    }
  }

  lemma {:induction false} NoUnderscoreUnchanged(s: string)
    requires '_' !in s
    ensures DropUnderscores(s) == s
  {
    if s != [] {
      assert s[0] in s;
      assert forall c :: c in s[1..] ==> c in s;
      NoUnderscoreUnchanged(s[1..]);
    }
  }

  lemma {:induction false} NoUpperNoUnderscores(s: string)
    requires NoAsciiUpper(s)
    ensures InsertUnderscores(s) == s
  {
    if |s| >= 2 {
      assert !IsAsciiUpper(s[1]);
      NoUpperNoUnderscores(s[1..]);
    }
  }

  /** Converting an already converted name changes nothing. */
  lemma SnakeCaseIdempotent(name: string)
    ensures SnakeCase(SnakeCase(name)) == SnakeCase(name)
  {
    var t := SnakeCase(name);
    NoUpperNoUnderscores(t);
    LowerIdempotent(InsertUnderscores(name));
  }

  // ---------------------------------------------------------------------------
  // Types
  // ---------------------------------------------------------------------------

  /** `javaTypeMap`: diagram type names (lower case) to Java type names. */
  const JavaTypeMap: map<string, string> := map[
    "string" := "String",
    "number" := "Long",
    "integer" := "Integer",
    "float" := "Float",
    "double" := "Double",
    "boolean" := "Boolean",
    "date" := "LocalDateTime",
    "array" := "List",
    "list" := "List",
    "set" := "Set",
    "map" := "Map",
    "object" := "Object",
    "int" := "Integer",
    "long" := "Long",
    "bool" := "Boolean"
  ]

  /** The Java types a generated field can have. */
  const JavaTypes: set<string> :=
    {"String", "Long", "Integer", "Float", "Double", "Boolean", "LocalDateTime", "List", "Set", "Map", "Object"}

  /** `mapToJavaType`: the table entry of the lower-cased name; an unknown name becomes `String`. */
  function MapToJavaType(typ: string): (r: string)
    ensures r in JavaTypes
    ensures Lower(typ) in JavaTypeMap ==> r == JavaTypeMap[Lower(typ)]
    ensures Lower(typ) !in JavaTypeMap ==> r == "String"
  {
    var key := Lower(typ);
    if key in JavaTypeMap then JavaTypeMap[key] else "String"
  }

  /** The lookup ignores ASCII case. */
  lemma MapToJavaTypeIgnoresCase(typ: string)
    ensures MapToJavaType(typ) == MapToJavaType(Lower(typ))
  {
    LowerIdempotent(typ);
  }

  predicate EndsWith(s: string, suffix: string) {
    |s| >= |suffix| && s[|s| - |suffix|..] == suffix
  }

  lemma EndsWithConcat(a: string, b: string)
    ensures EndsWith(a + b, b)
  {
    assert (a + b)[|a|..] == b;
  }

  lemma JavaTypeKeysShort()
    ensures forall k :: k in JavaTypeMap ==> |k| <= 7
  {
  }

  /**
   * A type name longer than seven characters is never a key of the table, so it
   * becomes `String`: a property typed `LocalDateTime` in the diagram becomes a
   * `String` field, only `date` leads to `LocalDateTime`.
   */
  lemma LongTypeNamesBecomeString(typ: string)
    requires |typ| > 7
    ensures MapToJavaType(typ) == "String"
  {
    JavaTypeKeysShort();
  }

  // ---------------------------------------------------------------------------
  // Entity source
  // ---------------------------------------------------------------------------

  /** The field declaration every property ends with. */
  function FieldLine(p: DiagramProperty): string {
    "    private " + MapToJavaType(p.typ) + " " + p.name + ";"
  }

  function ColumnAnnotation(p: DiagramProperty): string {
    "    @Column(name = \"" + SnakeCase(p.name) + "\")\n"
  }

  /** The fifth character of a block is `@` when the block opens with an annotation. */
  predicate Annotated(block: string) {
    |block| > 4 && block[4] == '@'
  }

  /**
   * One property of `generateEntityProperties`: a `@Column` annotation with the
   * snake_case column name exactly when the visibility is not `public`, then the field.
   */
  function PropertyBlock(p: DiagramProperty): (r: string)
    ensures EndsWith(r, FieldLine(p))
    ensures Annotated(r) <==> p.visibility != "public"
    ensures Annotated(r) ==> |r| >= |ColumnAnnotation(p)| && r[..|ColumnAnnotation(p)|] == ColumnAnnotation(p)
  {
    var column := if p.visibility != "public" then ColumnAnnotation(p) else "";
    var r := column + FieldLine(p);
    assert r[4] == if p.visibility != "public" then '@' else 'p';
    r
  }

  function Blocks(props: seq<DiagramProperty>): (r: seq<string>)
    ensures |r| == |props|
    ensures forall i :: 0 <= i < |props| ==> r[i] == PropertyBlock(props[i])
  {
    if props == [] then [] else [PropertyBlock(props[0])] + Blocks(props[1..])
  }

  /** `generateEntityProperties`: the blocks of the properties, separated by a blank line. */
  function GenerateEntityProperties(props: seq<DiagramProperty>): string {
    Join(Blocks(props), "\n\n")
  }

  /** No property gives an empty text; one more property adds a blank line and its block. */
  lemma EntityPropertiesSnoc(props: seq<DiagramProperty>, p: DiagramProperty)
    ensures GenerateEntityProperties([]) == ""
    ensures props != [] ==>
      GenerateEntityProperties(props + [p]) == GenerateEntityProperties(props) + "\n\n" + PropertyBlock(p)
    ensures props == [] ==> GenerateEntityProperties([p]) == PropertyBlock(p)
  {
    if props != [] {
      assert Blocks(props + [p]) == Blocks(props) + [PropertyBlock(p)];
      JoinSnoc(Blocks(props), PropertyBlock(p), "\n\n");
    }
  }

  /**
   * Where each piece of an entity text sits, for any texts in the template's
   * places: `imports` (which starts with `pkg`), `table`, `annotations`,
   * `cls`, `idField` and `tail`.
   */
  lemma EntityShape(pkg: string, imports: string, table: string, annotations: string, cls: string,
                    idField: string, tail: string)
    requires |imports| >= |pkg| && imports[..|pkg|] == pkg
    ensures var r := imports + table + annotations + cls + idField + tail;
      var head := imports + table + annotations;
      && |r| >= |pkg| && r[..|pkg|] == pkg
      && EndsWith(r, tail)
      && |r| >= |head| && r[..|head|] == head
      && |r| == |head| + |cls| + |idField| + |tail|
      && r[|head|..|head| + |cls|] == cls
      && r[|head| + |cls|..|head| + |cls| + |idField|] == idField
  {
    var head := imports + table + annotations;
    var r := head + cls + idField + tail;
    assert imports + table + annotations + cls + idField + tail == r;
    assert r[..|head|] == head;
    assert r[..|pkg|] == r[..|head|][..|pkg|];
    assert head[..|pkg|] == head[..|imports|][..|pkg|];
    assert head[..|imports|] == imports;
    assert r[|head|..|head| + |cls|] == cls;
    assert r[|head| + |cls|..|head| + |cls| + |idField|] == idField;
    assert r[|r| - |tail|..] == tail;
  }

  lemma EntityImportsStartWithPackage()
    ensures |EntityImports| >= |EntityPackage| && EntityImports[..|EntityPackage|] == EntityPackage
  {
  }

  const EntityPackage := "package com.example.demo.entities;\n"

  /** Everything of the entity template before the table name. */
  const EntityImports :=
    EntityPackage
    + "    \n"
    + "    import jakarta.persistence.*;\n"
    + "    import lombok.Getter;\n"
    + "    import lombok.Setter;\n"
    + "    import lombok.NoArgsConstructor;\n"
    + "    import java.time.LocalDateTime;\n"
    + "    import java.util.*;\n"
    + "    \n"
    + "    @Entity\n"
    + "    @Table(name = \""

  const EntityAnnotations := "\")\n    @Getter\n    @Setter\n    @NoArgsConstructor\n    public class "

  const EntityIdField :=
    " {\n"
    + "    \n"
    + "        @Id\n"
    + "        @GeneratedValue(strategy = GenerationType.IDENTITY)\n"
    + "        private Long id;\n"
    + "        \n"
    + "    "

  const EntityClose := "\n    }"

  /** The entity template filled with a table name, a class name and the property text. */
  function EntityFor(table: string, cls: string, props: string): (r: string)
    ensures |r| >= |EntityPackage| && r[..|EntityPackage|] == EntityPackage
    ensures EndsWith(r, props + EntityClose)
    ensures var head := EntityImports + table + EntityAnnotations;
      |r| >= |head| && r[..|head|] == head
    ensures var head := EntityImports + table + EntityAnnotations;
      && |r| == |head| + |cls| + |EntityIdField| + |props| + |EntityClose|
      && r[|head|..|head| + |cls|] == cls
      && r[|head| + |cls|..|head| + |cls| + |EntityIdField|] == EntityIdField
  {
    EntityImportsStartWithPackage();
    EntityShape(EntityPackage, EntityImports, table, EntityAnnotations, cls, EntityIdField, props + EntityClose);
    EntityImports + table + EntityAnnotations + cls + EntityIdField + (props + EntityClose)
  }

  /**
   * `generateEntity`: the entities package, the JPA and Lombok imports, `@Table`
   * with the snake_case node name, the class named by `formatClassName`, the
   * generated `id` field, the property blocks, the closing brace.
   */
  function GenerateEntity(node: DiagramNode): (r: string)
    ensures |r| >= |EntityPackage| && r[..|EntityPackage|] == EntityPackage
    ensures EndsWith(r, GenerateEntityProperties(node.properties) + EntityClose)
    ensures var table := EntityImports + SnakeCase(node.name) + EntityAnnotations;
      |r| >= |table| && r[..|table|] == table
    ensures var table := EntityImports + SnakeCase(node.name) + EntityAnnotations;
      var cls := FormatClassName(node.name);
      var props := GenerateEntityProperties(node.properties);
      && |r| == |table| + |cls| + |EntityIdField| + |props| + |EntityClose|
      && r[|table|..|table| + |cls|] == cls
      && r[|table| + |cls|..|table| + |cls| + |EntityIdField|] == EntityIdField
  {
    EntityFor(SnakeCase(node.name), FormatClassName(node.name), GenerateEntityProperties(node.properties))
  }

  // ---------------------------------------------------------------------------
  // Project files
  // ---------------------------------------------------------------------------

  /** `generatePomXml`: the fixed Maven descriptor. */
  const PomXml: string :=
    "<?xml version=\"1.0\" encoding=\"UTF-8\"?>\n"
    + "<project xmlns=\"http://maven.apache.org/POM/4.0.0\" \n"
    + "         xmlns:xsi=\"http://www.w3.org/2001/XMLSchema-instance\"\n"
    + "         xsi:schemaLocation=\"http://maven.apache.org/POM/4.0.0 https://maven.apache.org/xsd/maven-4.0.0.xsd\">\n"
    + "    <modelVersion>4.0.0</modelVersion>\n"
    + "    \n"
    + "    <parent>\n"
    + "        <groupId>org.springframework.boot</groupId>\n"
    + "        <artifactId>spring-boot-starter-parent</artifactId>\n"
    + "        <version>3.2.2</version>\n"
    + "        <relativePath/>\n"
    + "    </parent>\n"
    + "    \n"
    + "    <groupId>com.example</groupId>\n"
    + "    <artifactId>demo</artifactId>\n"
    + "    <version>0.0.1-SNAPSHOT</version>\n"
    + "    <name>demo</name>\n"
    + "    <description>Project generated from UML diagram</description>\n"
    + "    \n"
    + "    <properties>\n"
    + "        <java.version>17</java.version>\n"
    + "    </properties>\n"
    + "    \n"
    + "    <dependencies>\n"
    + "        <dependency>\n"
    + "            <groupId>org.springframework.boot</groupId>\n"
    + "            <artifactId>spring-boot-starter-web</artifactId>\n"
    + "        </dependency>\n"
    + "        \n"
    + "        <dependency>\n"
    + "            <groupId>org.springframework.boot</groupId>\n"
    + "            <artifactId>spring-boot-starter-data-jpa</artifactId>\n"
    + "        </dependency>\n"
    + "        \n"
    + "        <dependency>\n"
    + "            <groupId>com.h2database</groupId>\n"
    + "            <artifactId>h2</artifactId>\n"
    + "            <scope>runtime</scope>\n"
    + "        </dependency>\n"
    + "        \n"
    + "        <dependency>\n"
    + "            <groupId>org.projectlombok</groupId>\n"
    + "            <artifactId>lombok</artifactId>\n"
    + "            <optional>true</optional>\n"
    + "        </dependency>\n"
    + "    </dependencies>\n"
    + "    \n"
    + "    <build>\n"
    + "        <plugins>\n"
    + "            <plugin>\n"
    + "                <groupId>org.springframework.boot</groupId>\n"
    + "                <artifactId>spring-boot-maven-plugin</artifactId>\n"
    + "                <configuration>\n"
    + "                    <excludes>\n"
    + "                        <exclude>\n"
    + "                            <groupId>org.projectlombok</groupId>\n"
    + "                            <artifactId>lombok</artifactId>\n"
    + "                        </exclude>\n"
    + "                    </excludes>\n"
    + "                </configuration>\n"
    + "            </plugin>\n"
    + "        </plugins>\n"
    + "    </build>\n"
    + "</project>"

  /** `generateMainClass`: the fixed Spring Boot entry point. */
  const MainClass: string :=
    "package com.example.demo;\n"
    + "    \n"
    + "    import org.springframework.boot.SpringApplication;\n"
    + "    import org.springframework.boot.autoconfigure.SpringBootApplication;\n"
    + "    \n"
    + "    @SpringBootApplication\n"
    + "    public class Application {\n"
    + "        public static void main(String[] args) {\n"
    + "            SpringApplication.run(Application.class, args);\n"
    + "        }\n"
    + "    }"

  /** `generateApplicationProperties`: the fixed H2 and JPA settings. */
  const ApplicationProperties: string :=
    "# H2 Database Configuration\n"
    + "    spring.datasource.url=jdbc:h2:mem:testdb\n"
    + "    spring.datasource.driverClassName=org.h2.Driver\n"
    + "    spring.datasource.username=sa\n"
    + "    spring.datasource.password=\n"
    + "    spring.jpa.database-platform=org.hibernate.dialect.H2Dialect\n"
    + "    \n"
    + "    # Enable H2 Console\n"
    + "    spring.h2.console.enabled=true\n"
    + "    spring.h2.console.path=/h2-console\n"
    + "    \n"
    + "    # JPA Configuration\n"
    + "    spring.jpa.hibernate.ddl-auto=update\n"
    + "    spring.jpa.show-sql=true"

  const JavaRoot := "src/main/java/com/example/demo/"

  /**
   * The files of the generated project, by kind and class name. `Path` renders the
   * key `generateFiles` uses; `PathInjective` shows that two different files never
   * share a path, so keying the map by `FilePath` loses nothing.
   */
  datatype FilePath =
    | Pom
    | MainClassFile
    | PropertiesFile
    | Entity(className: string)
    | Repository(className: string)
    | Service(className: string)
    | Controller(className: string)

  function Path(f: FilePath): string {
    match f
    case Pom => "pom.xml"
    case MainClassFile => JavaRoot + "Application.java"
    case PropertiesFile => "src/main/resources/application.properties"
    case Entity(c) => JavaRoot + "entities/" + c + ".java"
    case Repository(c) => JavaRoot + "repositories/" + c + "Repository.java"
    case Service(c) => JavaRoot + "services/" + c + "Service.java"
    case Controller(c) => JavaRoot + "controllers/" + c + "Controller.java"
  }

  /** The folder letter right after the Java root, or a character that no folder starts with. */
  function Folder(f: FilePath): char {
    match f
    case Pom => 'p'
    case MainClassFile => 'A'
    case PropertiesFile => 'R'
    case Entity(_) => 'e'
    case Repository(_) => 'r'
    case Service(_) => 's'
    case Controller(_) => 'c'
  }

  /** Where a rendered path shows its folder letter: position 31 under the Java root. */
  function FolderOf(path: string): char {
    if |path| > 31 && path[9] == 'j' then path[31]
    else if |path| > 0 && path[0] == 'p' then 'p'
    else 'R'
  }

  lemma {:induction false} FolderOfJavaRoot(rest: string)
    requires |rest| > 0
    ensures FolderOf(JavaRoot + rest) == rest[0]
  {
    assert |JavaRoot| == 31;
    assert (JavaRoot + rest)[9] == JavaRoot[9] == 'j';
    assert (JavaRoot + rest)[31] == rest[0];
  }

  lemma {:induction false} FolderOfClassPath(folder: string, c: string, suffix: string)
    requires |folder| > 0
    ensures FolderOf(JavaRoot + folder + c + suffix) == folder[0]
  {
    assert JavaRoot + folder + c + suffix == JavaRoot + (folder + c + suffix);
    FolderOfJavaRoot(folder + c + suffix);
  }

  lemma FolderOfPath(f: FilePath)
    ensures FolderOf(Path(f)) == Folder(f)
  {
    match f
    case Pom =>
    case MainClassFile => FolderOfJavaRoot("Application.java");
    case PropertiesFile =>
    case Entity(c) => FolderOfClassPath("entities/", c, ".java");
    case Repository(c) => FolderOfClassPath("repositories/", c, "Repository.java");
    case Service(c) => FolderOfClassPath("services/", c, "Service.java");
    case Controller(c) => FolderOfClassPath("controllers/", c, "Controller.java");
  }

  /** Stripping a known prefix and suffix recovers the middle. */
  lemma {:induction false} Middle(pre: string, c: string, d: string, post: string)
    requires pre + c + post == pre + d + post
    ensures c == d
  {
    var x := pre + c + post;
    assert |c| == |d|;
    assert c == x[|pre|..|pre| + |c|];
    assert d == (pre + d + post)[|pre|..|pre| + |d|];
  }

  /** Two different files of the generated project never have the same path. */
  lemma PathInjective(f: FilePath, g: FilePath)
    ensures Path(f) == Path(g) ==> f == g
  {
    if Path(f) == Path(g) {
      FolderOfPath(f);
      FolderOfPath(g);
      match f
      case Entity(c) => Middle(JavaRoot + "entities/", c, g.className, ".java");
      case Repository(c) => Middle(JavaRoot + "repositories/", c, g.className, "Repository.java");
      case Service(c) => Middle(JavaRoot + "services/", c, g.className, "Service.java");
      case Controller(c) => Middle(JavaRoot + "controllers/", c, g.className, "Controller.java");
      case _ =>
    }
  }

  function NodeFiles(c: string): set<FilePath> {
    {Entity(c), Repository(c), Service(c), Controller(c)}
  }

  lemma OtherClassKeepsEntity(c: string, d: string)
    requires c != d
    ensures Entity(c) !in NodeFiles(d)
  {
  }

  /** The three files every generated project has. */
  predicate IsFixed(k: FilePath) {
    k.Pom? || k.MainClassFile? || k.PropertiesFile?
  }

  /** The fixed files with their texts. */
  function FixedFiles(): (r: map<FilePath, string>)
    ensures forall k :: k in r ==> IsFixed(k)
  {
    map[Pom := PomXml, MainClassFile := MainClass, PropertiesFile := ApplicationProperties]
  }

  /** The four files of class `c`: its entity, and repository, service and controller still empty. */
  function AddNodeFiles(files: map<FilePath, string>, c: string, entity: string): (r: map<FilePath, string>)
    ensures r.Keys == files.Keys + NodeFiles(c)
    ensures r[Entity(c)] == entity
    ensures r[Repository(c)] == "" && r[Service(c)] == "" && r[Controller(c)] == ""
    ensures forall k :: k in files && k !in NodeFiles(c) ==> r[k] == files[k]
  {
    files[Entity(c) := entity][Repository(c) := ""][Service(c) := ""][Controller(c) := ""]
  }

  /**
   * `generateFiles`: the fixed files, then each node's files in order; no node
   * replaces a fixed file. `fixed` holds the fixed files and `entity` renders a
   * node's entity source; `GenerateFiles` supplies `FixedFiles()` and `GenerateEntity`.
   */
  function GenerateFilesWith(fixed: map<FilePath, string>, entity: DiagramNode -> string, nodes: seq<DiagramNode>)
    : (r: map<FilePath, string>)
    requires forall k :: k in fixed ==> IsFixed(k)
    ensures forall k :: k in fixed ==> k in r && r[k] == fixed[k]
  {
    if nodes == [] then fixed
    else
      var node := nodes[|nodes| - 1];
      AddNodeFiles(GenerateFilesWith(fixed, entity, nodes[..|nodes| - 1]), FormatClassName(node.name), entity(node))
  }

  function GenerateFiles(nodes: seq<DiagramNode>): map<FilePath, string> {
    GenerateFilesWith(FixedFiles(), GenerateEntity, nodes)
  }

  /** Every node contributes its four files. */
  lemma {:induction false} NodeFilesPresent(fixed: map<FilePath, string>, entity: DiagramNode -> string,
      nodes: seq<DiagramNode>, i: int)
    requires forall k :: k in fixed ==> IsFixed(k)
    requires 0 <= i < |nodes|
    ensures NodeFiles(FormatClassName(nodes[i].name)) <= GenerateFilesWith(fixed, entity, nodes).Keys
    decreases |nodes|
  {
    if i < |nodes| - 1 {
      var prev := nodes[..|nodes| - 1];
      NodeFilesPresent(fixed, entity, prev, i);
      assert prev[i] == nodes[i];
    }
  }

  /** Every other file belongs to some node. */
  lemma {:induction false} GeneratedFilesComeFromNodes(fixed: map<FilePath, string>, entity: DiagramNode -> string,
      nodes: seq<DiagramNode>, k: FilePath)
    requires forall k :: k in fixed ==> IsFixed(k)
    requires k in GenerateFilesWith(fixed, entity, nodes) && k !in fixed
    ensures exists i :: 0 <= i < |nodes| && k in NodeFiles(FormatClassName(nodes[i].name))
    decreases |nodes|
  {
    var last := |nodes| - 1;
    if k !in NodeFiles(FormatClassName(nodes[last].name)) {
      var prev := nodes[..last];
      GeneratedFilesComeFromNodes(fixed, entity, prev, k);
      var i :| 0 <= i < |prev| && k in NodeFiles(FormatClassName(prev[i].name));
      assert prev[i] == nodes[i];
    }
  }

  /** Repository, service and controller files are generated empty. */
  lemma {:induction false} StubFilesEmpty(fixed: map<FilePath, string>, entity: DiagramNode -> string,
      nodes: seq<DiagramNode>, i: int)
    requires forall k :: k in fixed ==> IsFixed(k)
    requires 0 <= i < |nodes|
    ensures var c := FormatClassName(nodes[i].name); var r := GenerateFilesWith(fixed, entity, nodes);
      && Repository(c) in r && r[Repository(c)] == ""
      && Service(c) in r && r[Service(c)] == ""
      && Controller(c) in r && r[Controller(c)] == ""
    decreases |nodes|
  {
    if i < |nodes| - 1 {
      var prev := nodes[..|nodes| - 1];
      assert prev[i] == nodes[i];
      StubFilesEmpty(fixed, entity, prev, i);
      var c := FormatClassName(nodes[i].name);
      var last := nodes[|nodes| - 1];
      var d := FormatClassName(last.name);
      if c != d {
        OtherClassKeepsStubs(c, d);
      }
      assert GenerateFilesWith(fixed, entity, nodes)
          == AddNodeFiles(GenerateFilesWith(fixed, entity, prev), d, entity(last));
    }
  }

  lemma OtherClassKeepsStubs(c: string, d: string)
    requires c != d
    ensures Repository(c) !in NodeFiles(d) && Service(c) !in NodeFiles(d) && Controller(c) !in NodeFiles(d)
  {
  }

  /**
   * The entity file of a class holds the entity of the last node with that class
   * name: a later node with the same formatted name replaces an earlier one.
   */
  lemma {:induction false} EntityOfLastNode(fixed: map<FilePath, string>, entity: DiagramNode -> string,
      nodes: seq<DiagramNode>, i: int)
    requires forall k :: k in fixed ==> IsFixed(k)
    requires 0 <= i < |nodes|
    requires forall j :: i < j < |nodes| ==> FormatClassName(nodes[j].name) != FormatClassName(nodes[i].name)
    ensures var c := FormatClassName(nodes[i].name);
      Entity(c) in GenerateFilesWith(fixed, entity, nodes) && GenerateFilesWith(fixed, entity, nodes)[Entity(c)] == entity(nodes[i])
    decreases |nodes|
  {
    if i < |nodes| - 1 {
      var prev := nodes[..|nodes| - 1];
      assert prev[i] == nodes[i];
      EntityOfLastNode(fixed, entity, prev, i);
      var c := FormatClassName(nodes[i].name);
      var last := nodes[|nodes| - 1];
      OtherClassKeepsEntity(c, FormatClassName(last.name));
      assert GenerateFilesWith(fixed, entity, nodes)
          == AddNodeFiles(GenerateFilesWith(fixed, entity, prev), FormatClassName(last.name), entity(last));
    }
  }

  /** The project files for the diagram's nodes, as the four lemmas above state them for `GenerateEntity`. */
  lemma GeneratedProject(nodes: seq<DiagramNode>, i: int)
    requires 0 <= i < |nodes|
    requires forall j :: i < j < |nodes| ==> FormatClassName(nodes[j].name) != FormatClassName(nodes[i].name)
    ensures var c := FormatClassName(nodes[i].name); var r := GenerateFiles(nodes);
      && NodeFiles(c) <= r.Keys
      && r[Entity(c)] == GenerateEntity(nodes[i])
      && r[Repository(c)] == "" && r[Service(c)] == "" && r[Controller(c)] == ""
    ensures forall k :: k in FixedFiles() ==> k in GenerateFiles(nodes) && GenerateFiles(nodes)[k] == FixedFiles()[k]
  {
    NodeFilesPresent(FixedFiles(), GenerateEntity, nodes, i);
    StubFilesEmpty(FixedFiles(), GenerateEntity, nodes, i);
    EntityOfLastNode(FixedFiles(), GenerateEntity, nodes, i);
  }
}
