# Partial GoJS front end — a Dafny model of its pure logic

This project models the pure logic of an Angular front end for UML class
diagrams. The application draws class diagrams with GoJS, shares them live
through a socket broker, and generates a Spring Boot / JPA project from them.
It models five groups of behaviour:

- **Collaboration roster** (`Roster`): the collaboration panel's reducer from
  `USER_JOINED`, `USER_LEFT` and `PERMISSIONS_CHANGED` events to the list of
  participants. Also the single-flag permission toggle.
- **Collaboration session** (`Session`): the service's record `{sessionId,
  creatorEmail, isProcessingChanges, currentDiagramData}` and the operations
  that change it. Every broker request is answered by an abstract
  `Reply` (`NoConnection`, `Rejected(message)` or `Accepted(value)`). The
  messages the client emits are kept in a `sent` log.
- **Code generation** (`Spring`, `Relations`):
  - class, table and column name formatting;
  - the Java type table;
  - entity source text;
  - the project's file map;
  - the JPA relation lines, with the processed-relation set the service keeps between calls.
- **Diagram helpers** (`DiagramHelpers`):
  - visibility symbols;
  - the parameter list of a method row;
  - the row converters;
  - the next free node key;
  - the link-key rule.
- **Forms and lists**:
  - the validation helpers and the e-mail pattern (`Validation`);
  - the invitation dialog (`InviteDialog`);
  - the class editor panel (`ClassEditor`), with the index rules of Angular's
    `FormArray` (`FormArrays`);
  - the diagram list page (`DiagramList`).

Shared pieces:

- `Wrappers`: `Option` and `Result`.
- `Text`: ASCII case mapping, JavaScript `trim`, `join`, split-before-first and decimal digits.
- `DiagramTypes`: the node, property, method and parameter records.
- `CollabTypes`: the collaboration records.

Every operation is a pure function of its inputs. Several things become
parameters:

- the authenticated user;
- the broker's replies;
- the clock;
- the key generator of the graph model;
- the outcome of a delete request (answered, failed, or no stored token);
- the validity of the invitation form.

## Model

| member | source | states |
|---|---|---|
| Roster.DefaultPermissions | src/app/features/diagrams/components/collaboration-panel/collaboration-panel.component.ts:105-112 | The default permissions grant editing and no other flag. |
| Roster.OnUserJoined | src/app/features/diagrams/components/collaboration-panel/collaboration-panel.component.ts:51-61 | A join with an `activeUsers` list rebuilds the roster from that list in order. Every entry is active and stamped with the clock. The joiner gets the supplied permissions, or the default. Everyone else gets the default, so earlier custom permissions are dropped. `isCreator` holds exactly for the creator's email. |
| Roster.OnUserLeft | src/app/features/diagrams/components/collaboration-panel/collaboration-panel.component.ts:66-72 | A leave only clears `isActive` on records with that email. Length, order and every other field are kept, and nothing is removed. |
| Roster.OnPermissionsChanged | src/app/features/diagrams/components/collaboration-panel/collaboration-panel.component.ts:75-83 | Only records with that email get the new permissions, or the default. Every other record is unchanged. |
| Roster.HandleUserUpdate | src/app/features/diagrams/components/collaboration-panel/collaboration-panel.component.ts:45-86 | The three-case reducer. A join without a list is a no-op. A join with a list yields exactly those emails, all active. Leave and permission events keep emails, order, `isCreator` and `lastActivity`, and each changes only its own field. |
| Roster.UserLeftIdempotent | src/app/features/diagrams/components/collaboration-panel/collaboration-panel.component.ts:66-72 | Applying the same leave twice is applying it once. |
| Roster.UnknownEmailIsNoOp | src/app/features/diagrams/components/collaboration-panel/collaboration-panel.component.ts:75-83 | A permission event for an email nobody in the roster has leaves the roster unchanged. |
| Roster.CreatorPermissionsNotProtected | src/app/features/diagrams/components/collaboration-panel/collaboration-panel.component.ts:75-83 | Nothing protects the creator. A permission event naming the creator without permissions takes away its right to change permissions. |
| Roster.JoinedClientMarksNoCreator | src/app/features/diagrams/components/collaboration-panel/collaboration-panel.component.ts:59 | A client that joined without being the creator has no creator email. A roster it rebuilds therefore marks nobody as creator. |
| Roster.TogglePermission | src/app/features/diagrams/components/collaboration-panel/collaboration-panel.component.ts:90-93 | The requested permissions differ from the current ones in exactly the toggled flag. |
| Roster.ToggleTwiceRestores | src/app/features/diagrams/components/collaboration-panel/collaboration-panel.component.ts:90-93 | Toggling the same flag twice gives the original permissions back. |
| Roster.PermissionChangeAsWritten | src/app/features/diagrams/components/collaboration-panel/collaboration-panel.component.ts:88-103 | As written, when the request succeeds the roster is untouched. When it fails, the handler flips the never-changed local flag, so the roster shows the requested value. At most one permission request is logged. |
| Roster.RefusedChangeIsShown | src/app/features/diagrams/components/collaboration-panel/collaboration-panel.component.ts:99-102 | After a refused request, the as-written roster entry holds the refused permissions, which differ from the previous ones in the toggled flag. |
| Roster.PermissionChange | src/app/features/diagrams/components/collaboration-panel/collaboration-panel.component.ts:88-98 | The corrected handler leaves the roster alone, and logs the request exactly when the service forwards it. |
| Session.InitializeCollaborativeSession | src/app/shared/services/collaboration.service.ts:29-82 | Without a user it fails with no state change. Otherwise it stores the initial data first. An unacknowledged creation fails with only that change, plus the emitted request. An acknowledged one records the session id and the creator, even when the id is empty, and then fails on an empty id. It skips `addAllowedUsers` when nobody is invited. On success it returns the stored session id. |
| Session.JoinSession | src/app/shared/services/collaboration.service.ts:122-149 | Without a user it fails with no state change. A failed join keeps the session id, creator and data. An accepted join records the requested id. It takes the diagram data only if the reply carries some, and the creator only if the reply says so. |
| Session.ReceiveChange | src/app/shared/services/collaboration.service.ts:151-166 | An incoming change overwrites the stored data exactly when it carries data. It is passed on unchanged, and nothing else, including the processing flag, changes. |
| Session.SendChanges | src/app/shared/services/collaboration.service.ts:168-199 | Without a session, while the flag is set, or without a user, nothing changes and nothing is sent. Otherwise it stores the data and appends exactly one change message with the session id, user, delta and data. The processing flag ends as it began. |
| Session.UpdateUserPermissions | src/app/shared/services/collaboration.service.ts:208-225 | Without a session or a user it fails with no state change. Otherwise it logs the request and succeeds exactly when the broker accepts. Every failure carries the one permissions error. |
| Session.Disconnect | src/app/shared/services/collaboration.service.ts:227-232 | It clears the session id and the diagram data, and keeps the creator email and the log. |
| Session.ApplyKeepsFlag | src/app/shared/services/collaboration.service.ts:183-197 | No operation of the service leaves the processing flag different from how it found it. |
| Session.RunKeepsFlag | src/app/shared/services/collaboration.service.ts:168-199 | Any sequence of operations leaves the processing flag as it was. |
| Session.FlagNeverObservable | src/app/shared/services/collaboration.service.ts:171 | From the initial state, after any sequence of calls, the flag is clear. The `isProcessingChanges` guard therefore never suppresses a send. |
| Session.ReceivedChangeIsResent | src/app/shared/services/collaboration.service.ts:151-180 | In every reachable state with a session, a change just received and handed back to `sendChanges` is emitted again. There is no echo suppression. |
| Session.SecondCreationReplacesSession | src/app/shared/services/collaboration.service.ts:43-54 | Creating a session while one exists emits another creation request and replaces the session id. There is no idempotence guard. |
| Relations.ParseRelationship | src/app/features/diagrams/components/class-diagram/services/relation-generator.service.ts:10-31 | Exactly the four names Association, Inheritance, Composition and Aggregation are known categories. |
| Relations.Lookup | src/app/features/diagrams/components/class-diagram/services/relation-generator.service.ts:42-43 | A node-map lookup finds a name exactly when some entry has that key, and the name is that entry's. |
| Relations.Append | src/app/features/diagrams/components/class-diagram/services/relation-generator.service.ts:80-82 | Appending lines to a class: a class not yet seen starts empty, and every other class is unchanged. |
| Relations.FormatFieldName | src/app/features/diagrams/components/class-diagram/services/relation-generator.service.ts:119-121 | The first character is lower-cased and the rest kept; the empty name stays empty. |
| Relations.HandleInheritance | src/app/features/diagrams/components/class-diagram/services/relation-generator.service.ts:79-87 | The child gets `extends Parent` and the parent gets `@MappedSuperclass`. Both lines go to the one class when they are the same. Nothing else changes. |
| Relations.HandleComposition | src/app/features/diagrams/components/class-diagram/services/relation-generator.service.ts:89-101 | The owner gains the `@OneToMany(mappedBy = …)` line and the `List` field, and the owned class gains `@ManyToOne(fetch = FetchType.LAZY)`, the `@JoinColumn` and the back reference, each after its earlier lines. When owner and owned are the same class it gets all five in that order. Nothing else changes. |
| Relations.HandleAggregation | src/app/features/diagrams/components/class-diagram/services/relation-generator.service.ts:103-109 | Exactly the three `@ManyToOne` reference lines are appended to the aggregate only. |
| Relations.HandleAssociation | src/app/features/diagrams/components/class-diagram/services/relation-generator.service.ts:111-117 | Exactly the three `@OneToOne` reference lines are appended to the `from` class only. |
| Relations.Handle | src/app/features/diagrams/components/class-diagram/services/relation-generator.service.ts:54-67 | Whatever the category, the handler only appends lines, only to the relation's two classes, and always to its `from` class. |
| Relations.HandleGrowsFrom | src/app/features/diagrams/components/class-diagram/services/relation-generator.service.ts:54-67 | Every category adds at least one line to its `from` class. |
| Relations.AddAll | src/app/features/diagrams/components/class-diagram/services/relation-generator.service.ts:52 | Adding to the import set keeps its insertion order. Each new import goes at the end once, only when it was missing, and membership is the union. |
| Relations.Resolve | src/app/features/diagrams/components/class-diagram/services/relation-generator.service.ts:40-44 | A link stands for a relation exactly when its category is known and both ends name a non-empty class. Otherwise it is ignored. |
| Relations.StepLink | src/app/features/diagrams/components/class-diagram/services/relation-generator.service.ts:39-68 | An ignored link, or one whose relation was already processed, changes nothing. A new relation adds exactly its key to the processed set. Its `from` class gains lines, no class loses or reorders lines, and only its two classes change. The imports keep their order and gain only imports of its category that they lacked, each once, until every import of the category is present. |
| Relations.ProcessLinksSnoc | src/app/features/diagrams/components/class-diagram/services/relation-generator.service.ts:39 | Processing one more link is one more step of the `forEach`. |
| Relations.ProcessLinksGrows | src/app/features/diagrams/components/class-diagram/services/relation-generator.service.ts:47-48 | The processed set only grows. |
| Relations.ImportLines | src/app/features/diagrams/components/class-diagram/services/relation-generator.service.ts:72 | One `import X;` line per collected import, in order. |
| Relations.AttachImportsKeys | src/app/features/diagrams/components/class-diagram/services/relation-generator.service.ts:70-74 | After the import pass, the entries are those of the relations plus one for every class in the node map. |
| Relations.AttachImportsLines | src/app/features/diagrams/components/class-diagram/services/relation-generator.service.ts:70-74 | A class receives the import lines once for every node-map entry that names it. |
| Relations.ClassEndsWithImports | src/app/features/diagrams/components/class-diagram/services/relation-generator.service.ts:70-74 | Every class in the node map has an entry, and that entry ends with one `import X;` line per collected import. |
| Relations.GenerateRelationsAsWritten | src/app/features/diagrams/components/class-diagram/services/relation-generator.service.ts:35-77 | As written, relations are keyed by their names joined with `-`. The processed set persists, only grows, and gains exactly the joined keys of this call's resolvable links. The returned map has an entry for every class that gained relation lines and for every class of the node map. Each entry is that class's relation lines in link order, followed by one `import` line per collected import, repeated once per node-map entry naming the class. |
| Relations.RelationKeyCollides | src/app/features/diagrams/components/class-diagram/services/relation-generator.service.ts:46 | Two different relations, `A-B`→`C` and `A`→`B-C`, get the same joined key. |
| Relations.AsWrittenSkipsSecondLink | src/app/features/diagrams/components/class-diagram/services/relation-generator.service.ts:46-48 | As written, the second relation of that example is skipped. |
| Relations.AsWrittenDropsCollidingRelation | src/app/features/diagrams/components/class-diagram/services/relation-generator.service.ts:46-48 | As written, class `A` of that example receives only the import line and no association. |
| Relations.GenerateRelations | src/app/features/diagrams/components/class-diagram/services/relation-generator.service.ts:35-77 | The corrected generator, keyed by the relation itself. The processed set persists across calls. It gains exactly the relations of this call's links, and every resolvable link's relation ends up in it. The returned map has an entry for every class with relation lines and for every node-map class. Each entry is the class's relation lines followed by the import lines, once per node-map entry naming it. Every relation new to the processed set leaves lines on its `from` class, and all of its imports are collected. |
| Relations.CollectedImports | src/app/features/diagrams/components/class-diagram/services/relation-generator.service.ts:35-77 | Every import a call collects belongs to the relation of one of its resolvable links. |
| Relations.NewRelationsBringImports | src/app/features/diagrams/components/class-diagram/services/relation-generator.service.ts:47-52 | Keyed by the relation itself, a link whose relation was not yet processed brings all of its category's imports. |
| Relations.ProcessedAreResolved | src/app/features/diagrams/components/class-diagram/services/relation-generator.service.ts:47-48 | For any key function, every key added to the processed set is the key of some link's relation, and every resolvable link's key is in it afterwards. |
| Relations.ProcessedLinkIsIgnored | src/app/features/diagrams/components/class-diagram/services/relation-generator.service.ts:46-48 | A link whose relation was processed in this call or an earlier one changes nothing. |
| Relations.NewRelationIsEmitted | src/app/features/diagrams/components/class-diagram/services/relation-generator.service.ts:47-67 | In the corrected generator, a link whose relation is new always adds lines to its `from` class. |
| Relations.AllClassLines | src/app/features/diagrams/components/class-diagram/services/relation-generator.service.ts:70-74 | After the import pass, every class holds its relation lines followed by the import lines, once per node-map entry naming it. A class the node map does not name keeps its lines unchanged. |
| Relations.HandleKeepsLines | src/app/features/diagrams/components/class-diagram/services/relation-generator.service.ts:54-67 | No relationship handler removes lines from any class. |
| Relations.LinesGrow | src/app/features/diagrams/components/class-diagram/services/relation-generator.service.ts:39-68 | Processing links never shortens the lines of any class. |
| Relations.NewRelationLinesKept | src/app/features/diagrams/components/class-diagram/services/relation-generator.service.ts:39-68 | In the corrected generator, a link whose relation was not processed before leaves its `from` class with more lines than it started with, whatever links come before or after it. |
| Relations.NewRelationsEmitted | src/app/features/diagrams/components/class-diagram/services/relation-generator.service.ts:35-68 | In a corrected call, every link whose relation is new to the processed set leaves relation lines on its `from` class. |
| Relations.ProcessTwoLinks | src/app/features/diagrams/components/class-diagram/services/relation-generator.service.ts:39 | Processing two links is one step of the `forEach` per link, in order. |
| Relations.CorrectedFirstStep | src/app/features/diagrams/components/class-diagram/services/relation-generator.service.ts:46-67 | Corrected, the first link of the collision example records `A-B`→`C`, collects the association imports, and gives `A` no lines. |
| Relations.CorrectedSecondStep | src/app/features/diagrams/components/class-diagram/services/relation-generator.service.ts:46-67 | Corrected, the second link of the example is not yet processed, so `A` gains the `@OneToOne` lines to `B-C` and the imports stay those of an association. |
| Relations.CorrectedKeepsSecondLink | src/app/features/diagrams/components/class-diagram/services/relation-generator.service.ts:39-68 | Corrected, processing both links of the example leaves `A` with the `@OneToOne` lines to `B-C` and the association imports. |
| Relations.CollisionCountA | src/app/features/diagrams/components/class-diagram/services/relation-generator.service.ts:70 | In the collision example, exactly one node-map entry names `A`. |
| Relations.CorrectedKeepsCollidingRelation | src/app/features/diagrams/components/class-diagram/services/relation-generator.service.ts:35-77 | Corrected, class `A` of the collision example gets the `@OneToOne` lines of its association to `B-C`, then the import line. This is where the as-written generator gives only the import line. |
| Spring.FormatClassName | src/app/features/diagrams/components/class-diagram/services/spring-generator.service.ts:86-88 | The first character is upper-cased and the rest kept; the empty name stays empty. |
| Spring.FormatClassNameIdempotent | src/app/features/diagrams/components/class-diagram/services/spring-generator.service.ts:86-88 | Formatting a class name twice is formatting it once. |
| Spring.FieldAndClassNamesAgree | src/app/features/diagrams/components/class-diagram/services/spring-generator.service.ts:86-88 | The class-name and field-name formats only touch the first character, so each undoes the other's effect. |
| Spring.ScanFindsEveryBoundary | src/app/features/diagrams/components/class-diagram/services/spring-generator.service.ts:202 | The global replace scan puts `_` between every adjacent ASCII lowercase/uppercase pair. The result equals a reference definition that inspects every boundary. |
| Spring.SnakeCase | src/app/features/diagrams/components/class-diagram/services/spring-generator.service.ts:199-204 | A table name is the class name with `_` put between every lower-case letter and the upper-case letter right after it, then lower-cased (the `Separated` reading, which the global scan matches by `ScanFindsEveryBoundary`). So it has no ASCII uppercase letter and is at least as long as the class name. |
| Spring.InsertUnderscoresOnlyAddsUnderscores | src/app/features/diagrams/components/class-diagram/services/spring-generator.service.ts:202 | Removing the underscores undoes the replace: it only inserts `_`. |
| Spring.LowerKeepsUnderscores | src/app/features/diagrams/components/class-diagram/services/spring-generator.service.ts:203 | Lower-casing commutes with removing underscores. |
| Spring.SnakeCaseRoundTrip | src/app/features/diagrams/components/class-diagram/services/spring-generator.service.ts:224-227 | Removing the underscores from a column name gives the lower-cased name back, with its own underscores removed too; for a name without `_` it gives the lower-cased name. |
| Spring.NoUpperNoUnderscores | src/app/features/diagrams/components/class-diagram/services/spring-generator.service.ts:226 | A name without uppercase letters gains no underscore. |
| Spring.SnakeCaseIdempotent | src/app/features/diagrams/components/class-diagram/services/spring-generator.service.ts:224-227 | A table or column name formats to itself. |
| Spring.MapToJavaType | src/app/features/diagrams/components/class-diagram/services/spring-generator.service.ts:229-232 | The type is the table's entry for the lower-cased name, or `String` when there is none. It is always one of the table's Java types. |
| Spring.MapToJavaTypeIgnoresCase | src/app/features/diagrams/components/class-diagram/services/spring-generator.service.ts:230 | The lookup ignores ASCII case. |
| Spring.JavaTypeKeysShort | src/app/features/diagrams/components/class-diagram/services/spring-generator.service.ts:9-26 | Every key of the 15-entry table has at most seven characters. |
| Spring.LongTypeNamesBecomeString | src/app/features/diagrams/components/class-diagram/services/spring-generator.service.ts:229-231 | Every type name longer than seven characters, for example `LocalDateTime`, maps to `String`. |
| Spring.PropertyBlock | src/app/features/diagrams/components/class-diagram/services/spring-generator.service.ts:208-220 | A property's block ends with its field line. It starts with the `@Column` annotation of the column name exactly when the visibility is not `public`. |
| Spring.Blocks | src/app/features/diagrams/components/class-diagram/services/spring-generator.service.ts:208-221 | There is one block per property, in order. |
| Spring.EntityPropertiesSnoc | src/app/features/diagrams/components/class-diagram/services/spring-generator.service.ts:207-222 | The property text is the blocks joined by a blank line. No properties give the empty text, and one more property adds a blank line and its block. |
| Spring.EntityFor | src/app/features/diagrams/components/class-diagram/services/spring-generator.service.ts:175-196 | The entity template filled with a table name, a class name and property text is, piece by piece: the package line and imports, the `@Table` prefix with the table name, the Lombok annotations, the class name, the `id` field, the property text, and the closing brace. |
| Spring.GenerateEntity | src/app/features/diagrams/components/class-diagram/services/spring-generator.service.ts:171-197 | The entity source is, piece by piece: the package line and imports, `@Table` with the snake-case of the node name, the Lombok annotations, `public class` with `FormatClassName` of the node name, the generated `id` field, the property text, and the closing brace. |
| Spring.FolderOfPath | src/app/features/diagrams/components/class-diagram/services/spring-generator.service.ts:38-63 | Each kind of generated file lives in its own folder. |
| Spring.PathInjective | src/app/features/diagrams/components/class-diagram/services/spring-generator.service.ts:45-63 | Different files get different paths, so keying the file map by file is keying it by path. |
| Spring.AddNodeFiles | src/app/features/diagrams/components/class-diagram/services/spring-generator.service.ts:45-63 | One node adds its entity, repository, service and controller files. The entity gets its text and the other three are empty. Other files are unchanged. |
| Spring.GenerateFilesWith | src/app/features/diagrams/components/class-diagram/services/spring-generator.service.ts:36-66 | The fixed files it starts from stay in the map with their contents, since no node file replaces one. |
| Spring.NodeFilesPresent | src/app/features/diagrams/components/class-diagram/services/spring-generator.service.ts:45-63 | Every node contributes its four files, under its formatted class name. |
| Spring.GeneratedFilesComeFromNodes | src/app/features/diagrams/components/class-diagram/services/spring-generator.service.ts:38-65 | Every file other than the fixed three belongs to some node. |
| Spring.StubFilesEmpty | src/app/features/diagrams/components/class-diagram/services/spring-generator.service.ts:234-247 | Repository, service and controller files are empty. |
| Spring.EntityOfLastNode | src/app/features/diagrams/components/class-diagram/services/spring-generator.service.ts:45-50 | An entity file holds the text of the last node with that formatted class name, so same-named nodes overwrite each other. |
| Spring.GeneratedProject | src/app/features/diagrams/components/class-diagram/services/spring-generator.service.ts:36-66 | For the generator's own entity text, every node's four files are present. The entity file holds that node's entity when no later node shares its class name, and the stubs are empty. The three fixed files keep their fixed texts. |
| DiagramHelpers.ConvertVisibility | src/app/features/diagrams/components/class-diagram/services/GojsDiagram.service.ts:266-274 | The four visibility names map to `+`, `-`, `#` and `~`. Any other text is returned unchanged. |
| DiagramHelpers.ConvertVisibilityIdempotent | src/app/features/diagrams/components/class-diagram/services/GojsDiagram.service.ts:266-274 | A symbol is not a visibility name, so converting twice is converting once. |
| DiagramHelpers.FormatParameters | src/app/features/diagrams/components/class-diagram/services/GojsDiagram.service.ts:276-284 | The loop builds `(`, then the `name: type` items joined by `, `, then `)`. An empty or missing list gives `()`. |
| DiagramHelpers.TypeSeparator | src/app/features/diagrams/components/class-diagram/services/GojsDiagram.service.ts:81 | The separator `: ` appears exactly when there is a non-empty type. |
| DiagramHelpers.DefaultText | src/app/features/diagrams/components/class-diagram/services/GojsDiagram.service.ts:85 | The default shows as ` = d` exactly when there is a non-empty default `d`. |
| DiagramHelpers.IsUnderlined | src/app/features/diagrams/components/class-diagram/services/GojsDiagram.service.ts:79 | A member is underlined exactly when its scope starts with `c`. |
| DiagramHelpers.PropertyRowShape | src/app/features/diagrams/components/class-diagram/services/GojsDiagram.service.ts:72-87 | A typed property with a default reads `symbol name: type = default`. An untyped one without a default reads `symbol name`. |
| DiagramHelpers.MethodRowShape | src/app/features/diagrams/components/class-diagram/services/GojsDiagram.service.ts:89-104 | A method without parameters or type reads `symbol name()`. A typed one reads `symbol name(params): type`. |
| DiagramHelpers.MaxOrZero | src/app/features/diagrams/components/class-diagram/services/GojsDiagram.service.ts:314-317 | The running maximum starts at 0. It bounds every key and is either 0 or one of the keys. |
| DiagramHelpers.GenerateUniqueKey | src/app/features/diagrams/components/class-diagram/services/GojsDiagram.service.ts:313-319 | The new key is the maximum of 0 and every node key, plus 1. It is at least 1, greater than every key, and unused. |
| DiagramHelpers.MakeUniqueLinkKey | src/app/features/diagrams/components/class-diagram/services/GojsDiagram.service.ts:52-63 | Without a non-empty key property name there is no key and no change. An existing key is returned unchanged. A missing one is taken from the graph model's key generator (a parameter, assumed configured), stored under the name and returned, and other fields are kept. |
| DiagramHelpers.LinkKeyIsStable | src/app/features/diagrams/components/class-diagram/services/GojsDiagram.service.ts:52-63 | Asking again after a key was assigned returns the same key and changes nothing. |
| Validation.GetFieldError | src/app/features/diagrams/components/class-diagram/services/validation.service.ts:10-20 | There is no message without a control or without errors. Otherwise `required` wins, then `pattern`, then `notRegistered`, and any other error gives no message. Each case holds in both directions. |
| Validation.GetFieldErrorFollowsPrecedence | src/app/features/diagrams/components/class-diagram/services/validation.service.ts:15-17 | The helper reads the precedence table top to bottom. |
| Validation.OtherErrorsIgnored | src/app/features/diagrams/components/class-diagram/services/validation.service.ts:19 | Error keys the helper does not know never change its answer. |
| Validation.FieldHasErrors | src/app/features/diagrams/components/class-diagram/services/validation.service.ts:22-24 | An error is shown exactly for a control that is both invalid and touched. |
| Validation.EmailSplitIsUnique | src/app/features/diagrams/components/class-diagram/services/validation.service.ts:8 | A string fits the pattern only at its first `@` and its last `.`. |
| Validation.IsEmailMatchesPattern | src/app/features/diagrams/components/class-diagram/services/validation.service.ts:8 | The direct check accepts exactly the strings that some split into local part, `@`, domain, `.` and a 2–4 letter top-level part accepts. |
| Validation.EmailNeedsAt | src/app/features/diagrams/components/class-diagram/services/validation.service.ts:8 | A matching address contains `@` and has at least five characters. |
| InviteDialog.AddInvitation | src/app/features/diagrams/components/class-diagram/components/invite-dialog/invite-dialog.component.ts:105-113 | With five entries it is a no-op. Otherwise it appends one empty entry and changes nothing else. |
| InviteDialog.InitializeForm | src/app/features/diagrams/components/class-diagram/components/invite-dialog/invite-dialog.component.ts:43-60 | The form starts with exactly one empty entry and permissions editing-only. Nothing is confirmed, and the form is enabled. |
| InviteDialog.RemoveInvitation | src/app/features/diagrams/components/class-diagram/components/invite-dialog/invite-dialog.component.ts:115-120 | Exactly the named entry leaves the list, with the others kept in order, and its address leaves the confirmed set. A negative index counts from the end. |
| InviteDialog.RecordVerified | src/app/features/diagrams/components/class-diagram/components/invite-dialog/invite-dialog.component.ts:87-88 | A confirmed address joins the confirmed set, and nothing else changes. |
| InviteDialog.AddThenRemoveRestores | src/app/features/diagrams/components/class-diagram/components/invite-dialog/invite-dialog.component.ts:105-120 | Adding an entry and removing it restores the list. |
| InviteDialog.RemovingDuplicateUnverifiesTwin | src/app/features/diagrams/components/class-diagram/components/invite-dialog/invite-dialog.component.ts:115-120 | Removing one of two entries with the same address un-confirms the remaining one. |
| InviteDialog.NeverMoreThanFive | src/app/features/diagrams/components/class-diagram/components/invite-dialog/invite-dialog.component.ts:105-113 | Whatever sequence of adds, removes and confirmations follows, the list never holds more than five entries. |
| InviteDialog.InvitedEmails | src/app/features/diagrams/components/class-diagram/components/invite-dialog/invite-dialog.component.ts:143-145 | The invited list holds exactly the non-empty addresses, and is the whole list when none is empty. |
| InviteDialog.InvitedEmailsConcat | src/app/features/diagrams/components/class-diagram/components/invite-dialog/invite-dialog.component.ts:143-145 | The filter works entry by entry, so the non-empty addresses keep their order and multiplicity. |
| InviteDialog.CollaborationUrlRoundTrip | src/app/features/diagrams/components/class-diagram/components/invite-dialog/invite-dialog.component.ts:200-203 | The link keeps the page address before the first `?`, and after it carries `sessionId=` and the id. Building a link from a link replaces the old id. |
| InviteDialog.OnSubmit | src/app/features/diagrams/components/class-diagram/components/invite-dialog/invite-dialog.component.ts:122-163 | An invalid form or an unconfirmed address stops the submit with no change. Otherwise the service creates a session seeded with the form value. On success the link is shown and the form stays disabled. On failure the form is re-enabled and the link section is unchanged. The processing flag is down afterwards. |
| InviteDialog.SessionOnlyWhenVerified | src/app/features/diagrams/components/class-diagram/components/invite-dialog/invite-dialog.component.ts:123-136 | The service state changes only for a valid form whose every address was confirmed, with a user logged in. |
| FormArrays.RemoveAt | src/app/features/diagrams/components/class-editor-panel/class-editor-panel.component.ts:134-145 | `removeAt` removes exactly the entry the adjusted index names, keeping the others in order. A still-negative index is raised to 0, and an index past the end removes nothing. |
| FormArrays.RemoveAtFarNegativeRemovesFirst | src/app/features/diagrams/components/class-editor-panel/class-editor-panel.component.ts:134-136 | A negative index before the start removes the first entry. |
| ClassEditor.CreateParameterGroup | src/app/features/diagrams/components/class-editor-panel/class-editor-panel.component.ts:88-93 | A parameter group has the parameter's name and type, or empty texts when there is no parameter. |
| ClassEditor.CreatePropertyGroup | src/app/features/diagrams/components/class-editor-panel/class-editor-panel.component.ts:68-75 | A property group copies name, type and visibility. A missing default becomes `''`. |
| ClassEditor.CreateMethodGroup | src/app/features/diagrams/components/class-editor-panel/class-editor-panel.component.ts:77-86 | A method group copies name and visibility. A missing type becomes `''`, and missing parameters become an empty list. Otherwise there is one group per parameter, in order. |
| ClassEditor.InitForm | src/app/features/diagrams/components/class-editor-panel/class-editor-panel.component.ts:56-66 | The form mirrors the node: its name, one group per property and one per method, in order. |
| ClassEditor.AddProperty | src/app/features/diagrams/components/class-editor-panel/class-editor-panel.component.ts:111-118 | One empty public property is appended, and nothing else changes. |
| ClassEditor.AddMethod | src/app/features/diagrams/components/class-editor-panel/class-editor-panel.component.ts:120-127 | One empty public method without parameters is appended, and nothing else changes. |
| ClassEditor.AddParameterToMethod | src/app/features/diagrams/components/class-editor-panel/class-editor-panel.component.ts:129-132 | Only the named method gains one empty parameter. |
| ClassEditor.RemoveProperty | src/app/features/diagrams/components/class-editor-panel/class-editor-panel.component.ts:134-136 | Only the property list changes, and it becomes `FormArrays.RemoveAt` of the index: the named entry leaves and the others keep their order, a far negative index removes the first entry, and an index past the end changes nothing. |
| ClassEditor.RemoveMethod | src/app/features/diagrams/components/class-editor-panel/class-editor-panel.component.ts:138-140 | Only the method list changes, and it becomes `FormArrays.RemoveAt` of the index: the named entry leaves and the others keep their order, a far negative index removes the first entry, and an index past the end changes nothing. |
| ClassEditor.RemoveParameter | src/app/features/diagrams/components/class-editor-panel/class-editor-panel.component.ts:142-145 | Only the named method's parameter list changes, as `removeAt` removes. |
| ClassEditor.AddThenRemoveParameter | src/app/features/diagrams/components/class-editor-panel/class-editor-panel.component.ts:129-145 | Adding a parameter and removing the last one gives the form back. |
| ClassEditor.AddThenRemoveProperty | src/app/features/diagrams/components/class-editor-panel/class-editor-panel.component.ts:111-136 | Adding a property and removing the last one gives the form back. |
| ClassEditor.FormValidMeans | src/app/features/diagrams/components/class-editor-panel/class-editor-panel.component.ts:58-92 | A form is valid exactly when the class name has at least two characters and every property name, type and visibility, method name and visibility, and parameter name and type is non-empty. |
| ClassEditor.GetErrorMessage | src/app/features/diagrams/components/class-editor-panel/class-editor-panel.component.ts:167-176 | The message is empty exactly for a missing or valid control. Otherwise it is the `required` message, or the `minlength` message with the bound. |
| ClassEditor.RequiredAndMinLengthExclusive | src/app/features/diagrams/components/class-editor-panel/class-editor-panel.component.ts:167-176 | The `required` and `minlength` errors never occur together, since `minLength` skips empty values. |
| ClassEditor.OnSubmit | src/app/features/diagrams/components/class-editor-panel/class-editor-panel.component.ts:147-161 | A node comes back exactly when the form is valid. It keeps the key and interface flag and takes the form's name. It has one property per property group and one method per method group, every method has a parameter list, and no member keeps a scope. Each property is the property group's value, and each method is the method group's value with its parameters mapped in order. |
| ClassEditor.ParametersRoundTrip | src/app/features/diagrams/components/class-editor-panel/class-editor-panel.component.ts:154-157 | A parameter list turned into groups and back is unchanged. |
| ClassEditor.UnchangedSubmitNormalizes | src/app/features/diagrams/components/class-editor-panel/class-editor-panel.component.ts:147-161 | Opening the editor on a node and submitting it unchanged gives the node back, with these normalizations: missing defaults and types become `''`, missing parameters become empty lists, and scopes are dropped. |
| DiagramList.InputValidator | src/app/features/diagrams/pages/diagram-list/diagram-list.component.ts:82-90 | The validator the dialog calls: the empty text gets the empty-name message, a text over 50 characters gets the length message, and every other text is accepted. Each case holds in both directions. |
| DiagramList.NewDiagram | src/app/features/diagrams/pages/diagram-list/diagram-list.component.ts:98-101 | A new diagram has the name trimmed of surrounding white space as its title, and empty content. |
| DiagramList.AcceptedTitleFits | src/app/features/diagrams/pages/diagram-list/diagram-list.component.ts:74-101 | A confirmed name gives a diagram whose title is the trimmed name, neither empty nor over 50 characters. |
| DiagramList.TrimEmptyIffBlank | src/app/features/diagrams/pages/diagram-list/diagram-list.component.ts:82-84 | Trimming leaves nothing exactly when the text is all white space. |
| DiagramList.ConfirmName | src/app/features/diagrams/pages/diagram-list/diagram-list.component.ts:74-97 | The dialog trims the typed text before it runs the validator, and a confirmed result carries the trimmed text. A text of only white space is refused with the empty-name message. A text whose trimmed form is over 50 characters is refused with the length message. Every other text is confirmed. Each case holds in both directions. |
| DiagramList.ConfirmIgnoresPadding | src/app/features/diagrams/pages/diagram-list/diagram-list.component.ts:74-97 | White space around the name never changes whether or how it is confirmed. |
| DiagramList.BlankNameRejected | src/app/features/diagrams/pages/diagram-list/diagram-list.component.ts:82-85 | A name of three blanks is refused with the empty-name message. |
| DiagramList.PaddedNameAccepted | src/app/features/diagrams/pages/diagram-list/diagram-list.component.ts:82-97 | A 50-character name typed with one leading blank is confirmed as that name. The validator would refuse the same text untrimmed. |
| DiagramList.Insert | src/app/features/diagrams/pages/diagram-list/diagram-list.component.ts:66-68 | Inserting into a list sorted newest first keeps it sorted, and adds exactly the one entry. |
| DiagramList.SortByUpdate | src/app/features/diagrams/pages/diagram-list/diagram-list.component.ts:66-68 | The sorted list is a permutation of the response, ordered by `updatedAt` from newest to oldest. |
| DiagramList.SortedOrderIsForced | src/app/features/diagrams/pages/diagram-list/diagram-list.component.ts:66-68 | Of two entries with different `updatedAt`, the newer always comes first. |
| DiagramList.InsertStable | src/app/features/diagrams/pages/diagram-list/diagram-list.component.ts:66-68 | An inserted entry goes before the entries with the same `updatedAt`. |
| DiagramList.SortIsStable | src/app/features/diagrams/pages/diagram-list/diagram-list.component.ts:66-68 | Entries with the same `updatedAt` keep their response order, as the stable `Array.prototype.sort` keeps them. |
| DiagramList.SortIsStableAll | src/app/features/diagrams/pages/diagram-list/diagram-list.component.ts:66-68 | The sort keeps the response order of the entries at every timestamp at once. |
| DiagramList.LoadDiagrams | src/app/features/diagrams/pages/diagram-list/diagram-list.component.ts:46-70 | After a successful load the list is the response sorted newest first, with no error. It is a permutation of the response, and entries with the same `updatedAt` keep their response order. After a failure the list is empty and the load error is set. Loading has finished either way. |
| DiagramList.WithoutId | src/app/features/diagrams/pages/diagram-list/diagram-list.component.ts:177 | No entry with that id is left, and every other entry of the list stays. |
| DiagramList.WithoutIdConcat | src/app/features/diagrams/pages/diagram-list/diagram-list.component.ts:177 | The filter works piecewise: filtering a concatenation is concatenating the filtered parts, so kept entries keep their order. |
| DiagramList.WithoutIdAbsent | src/app/features/diagrams/pages/diagram-list/diagram-list.component.ts:177 | A list without that id is left as it is, so deleting twice is deleting once. |
| DiagramList.WithoutIdKeepsOrder | src/app/features/diagrams/pages/diagram-list/diagram-list.component.ts:177 | Deleting keeps a list sorted newest first. |
| DiagramList.DeleteDiagram | src/app/features/diagrams/pages/diagram-list/diagram-list.component.ts:162-189 | The entry leaves the list and the success notice shows, even when the request failed. A failure also shows the error notice first. Without a stored token the service's `deleteDiagram` returns `of()`, which completes without a value, so the list is kept and no notice shows. |
| DiagramList.DeleteIgnoresFailure | src/app/features/diagrams/pages/diagram-list/diagram-list.component.ts:163-177 | The list after a delete is the same whether or not the request succeeded, and holds no entry with that id. Only a missing token keeps the list as it was. |
| DiagramList.ApplyFilter | src/app/features/diagrams/pages/diagram-list/diagram-list.component.ts:203-205 | The filter is the trimmed text with every character lower-cased: same length as `Trim(value)`, and each character is `LowerChar` of the trimmed one. So it has no uppercase letter and no surrounding white space. |
| DiagramList.ApplyFilterIdempotent | src/app/features/diagrams/pages/diagram-list/diagram-list.component.ts:204-205 | Normalizing an already normalized filter changes nothing. |

## Left out

- Socket transport (`websocket.service.ts`): the connection, the 5 s timeout and the event streams are I/O. Each request is one abstract `Reply`: `NoConnection` emits nothing, and any acknowledgement whose `status` is not `success` is `Rejected`.
- HTTP, storage and logging services, routing, guards and framework configuration: these are I/O and plumbing. The current user is passed in as an `Option<string>`.
- GoJS templates, layouts, palettes and model construction are foreign library calls. Only the converters bound in the row templates are modelled.
- The debounced e-mail check, snackbars, the clipboard, `window.history` and SweetAlert dialogs are UI, apart from the new-diagram name step (`DiagramList.ConfirmName`). A confirmation from the user service is the operation `RecordVerified`, and the validity of the invitation form is an input to `OnSubmit`.
- `createAndDownloadZip` is an empty stub. The long fixed file texts of `generatePomXml`, `generateMainClass` and `generateApplicationProperties` are copied as constants, and nothing is proved about their contents.
- Object tables (`relationshipMap`, `javaTypeMap`, `visibilityMap`) are modelled with their listed entries only. In JavaScript, names such as `constructor` or `toString` also hit members inherited from `Object.prototype`.
- Case mapping covers ASCII letters only. `toLowerCase` and `toUpperCase` also map other Unicode letters, and those are left unchanged here.
- String lengths count characters, while JavaScript counts UTF-16 code units. The 50-character title limit differs for names outside the Basic Multilingual Plane.
- Timestamps are integers (milliseconds). `Date.now()` is a parameter, and dates that do not parse (`NaN` in the comparator) are not modelled.
- Node keys are integers. The source compares `node.data.key` with `>` whatever its type.
- DiagramHelpers.MakeUniqueLinkKey: takes the key that `model.makeUniqueKeyFunction` would produce as the parameter `generated`, which assumes the graph model has such a function. Neither graph model in the source sets one (GojsDiagram.service.ts:24-27, class-diagram.component.ts:53-60). Unless the diagram library supplies a default, the missing-key branch throws instead of storing a key. `DiagramHelpers.LinkKeyIsStable` rests on the same assumption. The library is not part of this model.
- The generated file map is keyed by the kind of file and class name. Its paths are `Spring.Path`, which `Spring.PathInjective` shows to be injective. The iteration order of the JavaScript object is not modelled.
- `ClassEditor.AddParameterToMethod`, `ClassEditor.RemoveParameter` and `InviteDialog.RemoveInvitation` require an index that names an entry. Any other index makes the source throw reading a property of `undefined`, and that throw is not modelled.
- Non-integer indexes (`removeAt(1.5)`) and `null` form values are not modelled.
- Roster.PermissionChangeAsWritten: the failed-request revert flips the flag of one roster entry. In the source, entries built from one event can share that event's `permissions` object. That happens with a repeated address in `activeUsers` (collaboration-panel.component.ts:55-56) or several entries for `userEmail` (:79). The in-place write at :101 then flips the flag on all of them. The model has no object identity, so that sharing is not modelled.
- The name dialog is modelled only through its text input. `DiagramList.ConfirmName` takes the dialog library's `inputAutoTrim` default (on) for the trim before validation. The library itself is not part of this model.
- `Session.GetCreatorEmail` is a plain accessor and has no contract of its own. `Roster.JoinedClientMarksNoCreator` states its use.

## Findings

| source | as written | input that shows it | evidently intended | confidence | as-written member | corrected member |
|---|---|---|---|---|---|---|
| src/app/features/diagrams/components/class-diagram/services/relation-generator.service.ts:46 | The processed-relation key is the three names joined with `-`, so distinct relations whose names contain `-` share a key, and the later one is silently skipped. | Classes `A-B`, `C`, `A`, `B-C` with associations `A-B`→`C` then `A`→`B-C`: class `A` gets no `@OneToOne` lines. | Each distinct (from, to, category) triple is emitted once. | not executed; high | Relations.AsWrittenDropsCollidingRelation | Relations.GenerateRelations, Relations.CorrectedKeepsCollidingRelation |
| src/app/features/diagrams/components/collaboration-panel/collaboration-panel.component.ts:99-102 | On a failed permission request the handler "reverts" by flipping the local flag, but the local record was never changed, so the roster now shows the refused value. | Any user, any flag, with the service answering `Rejected`. | A failed request leaves the shown permissions as they were. | not executed; low (the template's binding is not part of this model) | Roster.RefusedChangeIsShown | Roster.PermissionChange |
