# FBX exporter metadata model

A Dafny model of the core of the Maya FBX exporter tool. The tool keeps its
metadata in the scene's `fileInfo` table: one string key per record, and an
XML document as the value. There are three kinds of record:

- actor layers, each with its animations;
- rig layers, each with its rig models;
- model layers, each with its models.

Every edit in the tool follows the same pattern:

1. Rebuild the records of one kind from the table.
2. Change the record the UI row names.
3. Write every record back.

The model covers:

- the `fileInfo` table (`Store.FileInfo`, a class whose key order and values the methods update);
- the records and identifier prefixes (`Records`);
- the Python string and list behaviour the code relies on (`PyCore`);
- the XML element lookups (`Xml`);
- writing records as XML and reading them back (`Codec`);
- the generic edit loops (`Edits`);
- the data-layer operations of `fbx_exporter_data.py` (`ExporterData`);
- the export preparation of `fbx_exporter_export.py` (`Export`);
- the model-layer parts of the UI class `CharacterExporterUi` (`ExporterUi`);
- the project path table (`ProjectData`);
- the preference dictionary logic (`Preferences`).

Python exceptions are modelled as `Err` values of `PyCore.Fault`:

- AttributeError: an attribute or method looked up on None;
- TypeError: `str + None`, or `', '.join` over a None;
- ValueError: `strtobool` of a word it does not know;
- IndexError: `list.pop` past the end;
- UnboundLocalError: a local read on a branch that never assigned it;
- ParseError: `ElementTree.fromstring` of a stored value that is not XML.

An edit that raises before it writes leaves the table unchanged. The model does not execute Maya. Each query to Maya or to the file system is a parameter:

- whether a node exists;
- the selection;
- UUIDs;
- whether a path is a directory;
- the workspace path;
- the environment.

Paths in the table below are relative to the repository root. Abbreviations used in the third column:

- "the table" is the `fileInfo` table;
- "written back" means every record is rewritten with its writer.

## Model

| member | source | states |
|---|---|---|
| Records.RigPrefixesShared | ContentCreators/DCCTFW/scr/tools/fbxexporters/__init__.py:179-180 | The rig and rig-layer prefixes are the same string, so a rig key and a rig-layer key of the same name coincide |
| Records.PrefixesDisjoint | ContentCreators/DCCTFW/scr/tools/fbxexporters/__init__.py:171-180 | No pair of the actor, model-layer and rig prefixes contains the other, so a prefix search of one kind never returns another kind's key through the prefix alone |
| Records.KindsMixThroughNames | ContentCreators/DCCTFW/scr/tools/fbxexporters/fbx_exporter_data.py:648-653 | A model layer named after the actor prefix's tail has a key that contains the actor prefix, so the substring key search lists it among the actors |
| Records.NewGlobalExportOptions | ContentCreators/DCCTFW/scr/tools/fbxexporters/__init__.py:123-129 | Fresh global options: no input connections, ASCII, no embedded textures, unit "cm", scale 1 |
| Records.NewExportOptions | ContentCreators/DCCTFW/scr/tools/fbxexporters/__init__.py:136-146 | Fresh export options have no override path or override options and the default FBX flags |
| Records.NewAnimationData | ContentCreators/DCCTFW/scr/tools/fbxexporters/__init__.py:191-201 | A fresh animation has every field unset |
| Records.NewActorLayerData | ContentCreators/DCCTFW/scr/tools/fbxexporters/__init__.py:216-224 | A fresh actor layer has no name and no export items or animations |
| Records.NewRigModelData | ContentCreators/DCCTFW/scr/tools/fbxexporters/__init__.py:257-263 | A fresh rig model has no name, no export items and no influences |
| Records.NewRigLayerData | ContentCreators/DCCTFW/scr/tools/fbxexporters/__init__.py:236-245 | A fresh rig layer has no name, no models and no export items |
| Records.NewModelData | ContentCreators/DCCTFW/scr/tools/fbxexporters/__init__.py:319-337 | A fresh model has no name or export items, both override switches off and the default flags |
| Records.NewLayerData | ContentCreators/DCCTFW/scr/tools/fbxexporters/__init__.py:279-296 | A fresh model layer has no name or models, both override switches off and the default flags |
| Records.NewUserOptionsData | ContentCreators/DCCTFW/scr/tools/fbxexporters/__init__.py:304-307 | Fresh user options: no save to disk, no auto-select, active tab on |
| Records.FreshRecordsShareFlags | ContentCreators/DCCTFW/scr/tools/fbxexporters/__init__.py:279-337 | Fresh layers, models and export options carry the same eight FBX flag values |
| PyCore.Concat | ContentCreators/DCCTFW/scr/tools/fbxexporters/fbx_exporter_data.py:312 | Prefix plus a name succeeds exactly when the name is set, and gives the concatenation; a None name raises |
| PyCore.Split | ContentCreators/DCCTFW/scr/tools/fbxexporters/fbx_exporter_data.py:590-594 | `split(', ')` always gives at least one piece, its first piece starts the text, and no piece contains the separator |
| PyCore.SplitJoin | ContentCreators/DCCTFW/scr/tools/fbxexporters/fbx_exporter_data.py:282-283 | Splitting the join of a non-empty list of separator-free items gives back the list |
| PyCore.JoinSplit | ContentCreators/DCCTFW/scr/tools/fbxexporters/fbx_exporter_data.py:590-594 | Joining the split pieces of any text gives back the text |
| PyCore.JoinConcat | ContentCreators/DCCTFW/scr/tools/fbxexporters/fbx_exporter_data.py:1087-1089 | Joining two non-empty lists end to end is joining each with one separator between |
| PyCore.JoinedItemComesBackSplit | ContentCreators/DCCTFW/scr/tools/fbxexporters/fbx_exporter_data.py:282-283 | An export item that itself holds the separator comes back as two items |
| PyCore.JoinTexts | ContentCreators/DCCTFW/scr/tools/fbxexporters/fbx_exporter_data.py:234-235 | Joining a list succeeds exactly when every element is set (a None element raises TypeError), and gives the join of the values |
| PyCore.RemoveAllAbsent | ContentCreators/DCCTFW/scr/tools/fbxexporters/fbx_exporter_data.py:569 | `replace(prefix, '')` leaves a text that does not contain the prefix unchanged |
| PyCore.RemoveAllKey | ContentCreators/DCCTFW/scr/tools/fbxexporters/fbx_exporter_data.py:569 | Removing the prefix from prefix + name gives the name when the name does not contain the prefix |
| PyCore.FlagText | ContentCreators/DCCTFW/scr/tools/fbxexporters/fbx_exporter_data.py:265 | The text `str(flag)` writes is never empty, so a flag is never stored as an empty element |
| PyCore.Lower | ContentCreators/DCCTFW/scr/tools/fbxexporters/fbx_exporter_data.py:572 | Lower-casing keeps the length |
| PyCore.StrToBool | ContentCreators/DCCTFW/scr/tools/fbxexporters/fbx_exporter_data.py:572 | `strtobool` yields a numeric 1/0 flag, and a missing text raises AttributeError |
| PyCore.FlagRoundTrip | ContentCreators/DCCTFW/scr/tools/fbxexporters/fbx_exporter_data.py:572-581 | Reading back the text of any flag, literal or numeric, gives the numeric flag of the same truth |
| Store.Set | ContentCreators/DCCTFW/scr/tools/fbxexporters/fbx_exporter_data.py:313 | Setting a key maps it to the value; an existing key keeps its place in the key order, a new key is appended |
| Store.SetWellFormed | ContentCreators/DCCTFW/scr/tools/fbxexporters/fbx_exporter_data.py:313 | Setting keeps the key list duplicate-free and equal to the stored keys, stores the value, and changes no other key |
| Store.FileInfo.SetItem | ContentCreators/DCCTFW/scr/tools/fbxexporters/fbx_exporter_data.py:313 | `fileInfo[key] = value` updates the table as Set says and keeps it well formed |
| Store.Without | ContentCreators/DCCTFW/scr/tools/fbxexporters/fbx_exporter_data.py:142-144 | Dropping a key from the key order keeps exactly the other keys |
| Store.Delete | ContentCreators/DCCTFW/scr/tools/fbxexporters/fbx_exporter_data.py:142-144 | Removing a key unmaps it, and an absent key leaves the table as it is |
| Store.DeleteWellFormed | ContentCreators/DCCTFW/scr/tools/fbxexporters/fbx_exporter_data.py:142-144 | Removing keeps the table well formed, removes the key from both order and values, and changes no other key |
| Store.FileInfo.Remove | ContentCreators/DCCTFW/scr/tools/fbxexporters/fbx_exporter_data.py:142-144 | `fileInfo(remove=key)` updates the table as Delete says and keeps it well formed |
| Store.KeysWith | ContentCreators/DCCTFW/scr/tools/fbxexporters/fbx_exporter_data.py:648-653 | The keys listed are exactly the stored keys that contain the prefix as a substring, in table order |
| Store.KeysWithDistinct | ContentCreators/DCCTFW/scr/tools/fbxexporters/fbx_exporter_data.py:648-653 | Listing keys of a duplicate-free table lists no key twice |
| Store.KeysWithAppend | ContentCreators/DCCTFW/scr/tools/fbxexporters/fbx_exporter_data.py:648-653 | The listing extends key by key: a key is appended exactly when it contains the prefix |
| Store.WriteAllOk | ContentCreators/DCCTFW/scr/tools/fbxexporters/fbx_exporter_data.py:309-315 | Writing records one by one succeeds exactly when every record's writer succeeds |
| Store.WriteAllFrame | ContentCreators/DCCTFW/scr/tools/fbxexporters/fbx_exporter_data.py:309-315 | Writing records keeps the table well formed and leaves every key that no record writes untouched |
| Store.WriteAllWritten | ContentCreators/DCCTFW/scr/tools/fbxexporters/fbx_exporter_data.py:309-315 | After a successful write, the last record with a given key is the one stored under it |
| Store.ReadAll | ContentCreators/DCCTFW/scr/tools/fbxexporters/fbx_exporter_data.py:680-687 | Building a record list succeeds exactly when every key's reader succeeds, and gives one record per key in order |
| Store.ReadAllFirstErr | ContentCreators/DCCTFW/scr/tools/fbxexporters/fbx_exporter_data.py:680-687 | The build raises the error of the first key whose reader fails |
| Xml.Stored | ContentCreators/DCCTFW/scr/tools/fbxexporters/fbx_exporter_data.py:263 | A text written into an element comes back set exactly when it was non-empty, and then unchanged |
| Xml.FindInSpec | ContentCreators/DCCTFW/scr/tools/fbxexporters/fbx_exporter_data.py:568 | `find(tag)` gives a child with that tag, and gives None exactly when no child has it |
| Xml.FindText | ContentCreators/DCCTFW/scr/tools/fbxexporters/fbx_exporter_data.py:570 | `find(tag).text` raises AttributeError exactly when no child has the tag, and is otherwise that child's text |
| Xml.FindChild | ContentCreators/DCCTFW/scr/tools/fbxexporters/fbx_exporter_data.py:568 | A lookup of a child element succeeds exactly when `find` finds one, and raises AttributeError on its use otherwise |
| Xml.Tagged | ContentCreators/DCCTFW/scr/tools/fbxexporters/fbx_exporter_data.py:582 | The children taken are children with that tag, in order |
| Xml.FindAllSingle | ContentCreators/DCCTFW/scr/tools/fbxexporters/fbx_exporter_data.py:582 | `findall('./models/model')` under a single `models` element of model children gives exactly those children |
| Codec.SplitItems | ContentCreators/DCCTFW/scr/tools/fbxexporters/fbx_exporter_data.py:590-594 | The guarded read of export items splits a non-empty text and gives no items for an empty or missing one |
| Codec.ItemsRoundTrip | ContentCreators/DCCTFW/scr/tools/fbxexporters/fbx_exporter_data.py:590-594 | Writing and re-reading export items keeps an empty list empty, keeps any list of separator-free items other than [""], is idempotent, and always gives such a list |
| Codec.FlagLeaves | ContentCreators/DCCTFW/scr/tools/fbxexporters/fbx_exporter_data.py:265-274 | The eight flag elements are written in order, each with its tag and flag text |
| Codec.ReadFlagsBack | ContentCreators/DCCTFW/scr/tools/fbxexporters/fbx_exporter_data.py:572-581 | Reading the flag elements back gives each flag as `strtobool` reads it |
| Codec.ModelsXml | ContentCreators/DCCTFW/scr/tools/fbxexporters/fbx_exporter_data.py:276-295 | One model element per model, in order |
| Codec.ReadModels | ContentCreators/DCCTFW/scr/tools/fbxexporters/fbx_exporter_data.py:582-608 | A successful read gives one model per element, each the read of its element |
| Codec.ReadModel | ContentCreators/DCCTFW/scr/tools/fbxexporters/fbx_exporter_data.py:582-608 | A model read leaves the version and the colour unset, since the reader never looks them up |
| Codec.ReadModelBack | ContentCreators/DCCTFW/scr/tools/fbxexporters/fbx_exporter_data.py:582-608 | A written model reads back as the model normalised by the codec |
| Codec.ReadModelsBack | ContentCreators/DCCTFW/scr/tools/fbxexporters/fbx_exporter_data.py:582-608 | Written models read back as the normalised models, in order |
| Codec.ReadLayerFromTable | ContentCreators/DCCTFW/scr/tools/fbxexporters/fbx_exporter_data.py:620-635 | A missing key gives no layer; a present key gives the layer its value reads as, or that read's error |
| Codec.ReadLayer | ContentCreators/DCCTFW/scr/tools/fbxexporters/fbx_exporter_data.py:556-610 | `populate_models_classes`, the source's only layer reader: a value that is not XML raises; the layer is named after its key with the prefix removed, and its type, its colour and its models' versions and colours are never read |
| Codec.LayerEntry | ContentCreators/DCCTFW/scr/tools/fbxexporters/fbx_exporter_data.py:309-313 | A layer can be written exactly when it has a name, under the model-layer prefix plus its name, as the layer document |
| Codec.LayerLookups | ContentCreators/DCCTFW/scr/tools/fbxexporters/fbx_exporter_data.py:567-570 | The written layer element holds the layer's path and both override switches where the reader looks for them |
| Codec.LayerRoundTrip | ContentCreators/DCCTFW/scr/tools/fbxexporters/fbx_exporter_data.py:556-610 | Any written layer reads back, under any key, as the layer normalised by the codec |
| Codec.LayerAsReadCanonical | ContentCreators/DCCTFW/scr/tools/fbxexporters/fbx_exporter_data.py:569 | A layer whose name does not hold the prefix keeps its name through the round trip and comes back in canonical form |
| Codec.LayerAsReadExact | ContentCreators/DCCTFW/scr/tools/fbxexporters/fbx_exporter_data.py:556-610 | Normalising a layer already in canonical form changes nothing |
| Codec.LayerRoundTripExact | ContentCreators/DCCTFW/scr/tools/fbxexporters/fbx_exporter_data.py:556-610 | Under its own key a layer always reads back canonical with its name, and a canonical layer reads back as itself |
| Codec.AnimationsXml | ContentCreators/DCCTFW/scr/tools/fbxexporters/fbx_exporter_data.py:237-244 | One animation element per animation, in order |
| Codec.ActorXml | ContentCreators/DCCTFW/scr/tools/fbxexporters/fbx_exporter_data.py:223-246 | Writing an actor raises exactly when one of its export items is None |
| Codec.ReadAnimations | ContentCreators/DCCTFW/scr/tools/fbxexporters/fbx_exporter_data.py:488-499 | A successful read gives one animation per element, each the read of its element |
| Codec.ReadAnimationBack | ContentCreators/DCCTFW/scr/tools/fbxexporters/fbx_exporter_data.py:488-499 | A written animation reads back normalised, with the actor's name as its layer |
| Codec.ReadAnimationsBack | ContentCreators/DCCTFW/scr/tools/fbxexporters/fbx_exporter_data.py:488-499 | An actor's written animations read back normalised, in order |
| Codec.Texts | ContentCreators/DCCTFW/scr/tools/fbxexporters/fbx_exporter_data.py:485-486 | Each item of the list becomes a set text, in order |
| Codec.TextValues | ContentCreators/DCCTFW/scr/tools/fbxexporters/fbx_exporter_data.py:234-235 | The values of a list of set texts, in order |
| Codec.AnimationsAsRead | ContentCreators/DCCTFW/scr/tools/fbxexporters/fbx_exporter_data.py:488-499 | The normal form of each animation, in order |
| Codec.ModelsAsRead | ContentCreators/DCCTFW/scr/tools/fbxexporters/fbx_exporter_data.py:582-608 | The normal form of each model, in order |
| Codec.RigModelsAsRead | ContentCreators/DCCTFW/scr/tools/fbxexporters/fbx_exporter_data.py:530-540 | The normal form of each rig model, in order |
| Codec.ActorEntry | ContentCreators/DCCTFW/scr/tools/fbxexporters/fbx_exporter_data.py:418-421 | An actor can be written exactly when it has a name and no None export item, under the actor prefix plus its name |
| Codec.ReadActorUsing | ContentCreators/DCCTFW/scr/tools/fbxexporters/fbx_exporter_data.py:465-501 | `populate_actors_classes` for either decoding of the export text: a blank value gives a fresh actor, any other value that is not XML raises, the name comes from the key, and the version and uuid are never read |
| Codec.ReadActorAsWritten | ContentCreators/DCCTFW/scr/tools/fbxexporters/fbx_exporter_data.py:465-501 | The source's actor reader, which the edits use: it fails exactly where the splitting reader does, reads the stored export text as one item whose split is the splitting reader's list, and agrees with it on every other field |
| Codec.ReadActor | ContentCreators/DCCTFW/scr/tools/fbxexporters/fbx_exporter_data.py:485-486 | The corrected actor reader splits the stored export text, so none of its items is None and the next write cannot raise |
| Codec.ActorRoundTripUsing | ContentCreators/DCCTFW/scr/tools/fbxexporters/fbx_exporter_data.py:465-501 | A writable actor reads back, under any key and with any decoding of its items text, as its normal form |
| Codec.ActorItemsComeBackJoined | ContentCreators/DCCTFW/scr/tools/fbxexporters/fbx_exporter_data.py:485-486 | As written, an actor's export items read back as one item holding their joined text, and no items read back as [None] |
| Codec.ActorEmptyItemsBreakNextWrite | ContentCreators/DCCTFW/scr/tools/fbxexporters/fbx_exporter_data.py:234-235 | As written, an actor with no export items reads back as one the next write cannot join (TypeError) |
| Codec.ActorRoundTrip | ContentCreators/DCCTFW/scr/tools/fbxexporters/fbx_exporter_data.py:465-501 | With the items split, a writable actor reads back writable, and separator-free items other than [""] come back unchanged |
| Codec.RigModelsXml | ContentCreators/DCCTFW/scr/tools/fbxexporters/fbx_exporter_data.py:200-209 | One rig model element per rig model, in order |
| Codec.ReadRigModels | ContentCreators/DCCTFW/scr/tools/fbxexporters/fbx_exporter_data.py:530-540 | A successful read gives one rig model per element, each the read of its element |
| Codec.ReadRigModel | ContentCreators/DCCTFW/scr/tools/fbxexporters/fbx_exporter_data.py:532-540 | A rig model read leaves the version unset, since the reader never looks it up |
| Codec.SplitAsWritten | ContentCreators/DCCTFW/scr/tools/fbxexporters/fbx_exporter_data.py:527-528 | The unguarded split raises exactly when the text is None |
| Codec.SplitGuarded | ContentCreators/DCCTFW/scr/tools/fbxexporters/fbx_exporter_data.py:590-594 | The guarded split never raises and gives the guarded export items |
| Codec.ReadRigFromTable | ContentCreators/DCCTFW/scr/tools/fbxexporters/fbx_exporter_data.py:514-515 | `populate_rig_class`: a missing rig key gives a fresh rig; a present key gives the source's read of its value, with the unguarded split |
| Codec.ReadRigUsing | ContentCreators/DCCTFW/scr/tools/fbxexporters/fbx_exporter_data.py:503-542 | `populate_rig_class` for either decoding of the export text: a value that is not XML raises; the uuid and the versions of the rig and its models are never read |
| Codec.ReadRigAsWritten | ContentCreators/DCCTFW/scr/tools/fbxexporters/fbx_exporter_data.py:503-542 | The source's rig reader, which the edits use: wherever it succeeds the guarded reader succeeds too, with the same fields and the same models apart from the export lists |
| Codec.RigModelReadersAgree | ContentCreators/DCCTFW/scr/tools/fbxexporters/fbx_exporter_data.py:530-540 | Wherever the unguarded split reads a list of rig models, the guarded one reads the same models apart from their export lists |
| Codec.RigEntry | ContentCreators/DCCTFW/scr/tools/fbxexporters/fbx_exporter_data.py:437-440 | A rig can be written exactly when it has a name, under the rig prefix plus its name |
| Codec.ReadRigModelBack | ContentCreators/DCCTFW/scr/tools/fbxexporters/fbx_exporter_data.py:531-540 | A written rig model reads back with its fields as stored and its items as decoded, or raises what decoding raises |
| Codec.ReadRigModelsBack | ContentCreators/DCCTFW/scr/tools/fbxexporters/fbx_exporter_data.py:531-540 | With the guarded split, written rig models read back normalised, in order |
| Codec.RigFieldsBack | ContentCreators/DCCTFW/scr/tools/fbxexporters/fbx_exporter_data.py:519-525 | A written rig reads back with its name, model name, root and paths as stored, or raises what decoding its items or models raises |
| Codec.RigRoundTrip | ContentCreators/DCCTFW/scr/tools/fbxexporters/fbx_exporter_data.py:503-542 | With the guarded split, any written rig reads back as its normal form |
| Codec.RigReadableAsWritten | ContentCreators/DCCTFW/scr/tools/fbxexporters/fbx_exporter_data.py:503-542 | The source's reader reads a written rig back exactly when neither its export list nor any model's joins to the empty text, and then gives the guarded reader's result |
| Codec.ReadRigModelsAsWrittenFail | ContentCreators/DCCTFW/scr/tools/fbxexporters/fbx_exporter_data.py:539-540 | As written, one rig model whose export list joins to the empty text makes reading all rig models raise AttributeError |
| Codec.RigEmptyItemsUnreadable | ContentCreators/DCCTFW/scr/tools/fbxexporters/fbx_exporter_data.py:527-528 | As written, a rig with no export items, or with a rig model with none, cannot be read back |
| Codec.FreshRigUnreadable | ContentCreators/DCCTFW/scr/tools/fbxexporters/fbx_exporter_data.py:527-528 | As written, a freshly created named rig cannot be read back; with the guard it can |
| Edits.MapWhere | ContentCreators/DCCTFW/scr/tools/fbxexporters/fbx_exporter_data.py:908-911 | Same length; a record the selector picks is updated, and every other record is kept |
| Edits.UpdateWhere | ContentCreators/DCCTFW/scr/tools/fbxexporters/fbx_exporter_data.py:908-911 | The update loop computes MapWhere |
| Edits.TryMapWhere | ContentCreators/DCCTFW/scr/tools/fbxexporters/fbx_exporter_data.py:746-753 | A raising update succeeds exactly when it succeeds on every record picked, and then updates those and keeps the rest |
| Edits.TryMapWhereFirstErr | ContentCreators/DCCTFW/scr/tools/fbxexporters/fbx_exporter_data.py:746-753 | The loop raises the error of the first picked record whose update raises |
| Edits.TryUpdateWhere | ContentCreators/DCCTFW/scr/tools/fbxexporters/fbx_exporter_data.py:746-753 | The raising update loop computes TryMapWhere |
| Edits.LastIndex | ContentCreators/DCCTFW/scr/tools/fbxexporters/fbx_exporter_data.py:97-105 | The index a loop keeps reassigning is the last match, or none when nothing matches |
| Edits.LastPair | ContentCreators/DCCTFW/scr/tools/fbxexporters/fbx_exporter_data.py:97-105 | The parent and child indices the nested loop keeps last: a matching child of a matching parent, with no later match in that parent or later matching parents |
| Edits.LastMatch | ContentCreators/DCCTFW/scr/tools/fbxexporters/fbx_exporter_data.py:97-105 | The loop computes LastIndex |
| Edits.FindLast | ContentCreators/DCCTFW/scr/tools/fbxexporters/fbx_exporter_data.py:97-105 | The nested loop computes the last matching parent and the last matching pair |
| Edits.RemoveChild | ContentCreators/DCCTFW/scr/tools/fbxexporters/fbx_exporter_data.py:97-107 | Popping with an unset parent or child index raises TypeError, and a successful pop keeps the parent count |
| Edits.RemoveChildUnique | ContentCreators/DCCTFW/scr/tools/fbxexporters/fbx_exporter_data.py:97-107 | With one matching parent and one matching child, the child is removed from that parent and nothing else changes |
| Edits.LastPairUnique | ContentCreators/DCCTFW/scr/tools/fbxexporters/fbx_exporter_data.py:100-105 | With one matching parent and one matching child the loop finds exactly those |
| Edits.RemoveChildFromOtherParent | ContentCreators/DCCTFW/scr/tools/fbxexporters/fbx_exporter_data.py:100-107 | When the last matching parent has no matching child, the child index kept comes from an earlier parent |
| Edits.FirstIndex | ContentCreators/DCCTFW/scr/tools/fbxexporters/fbx_exporter_data.py:849-856 | The first match, or none when nothing matches |
| Edits.FirstHolder | ContentCreators/DCCTFW/scr/tools/fbxexporters/fbx_exporter_data.py:849-856 | The first model, over all layers in order, that holds the item, or none when no model does |
| Edits.FirstHolderUnique | ContentCreators/DCCTFW/scr/tools/fbxexporters/fbx_exporter_data.py:849-856 | The first holder is the pair with no holder before it |
| Edits.FindHolder | ContentCreators/DCCTFW/scr/tools/fbxexporters/fbx_exporter_data.py:849-856 | The search loop that returns at the first holder computes FirstHolder |
| Edits.ReplaceItem | ContentCreators/DCCTFW/scr/tools/fbxexporters/fbx_exporter_data.py:851-854 | Popping the item and appending its new name keeps the length, ends with the new name, and swaps one occurrence of the old name for the new |
| Edits.GatherStops | ContentCreators/DCCTFW/scr/tools/fbxexporters/fbx_exporter_ui.py:1014-1030 | Once a step has raised, the later layers and models are not visited |
| Edits.GatherQuiet | ContentCreators/DCCTFW/scr/tools/fbxexporters/fbx_exporter_ui.py:1014-1030 | When no step exports or raises, the whole loop exports nothing |
| Edits.GatherOne | ContentCreators/DCCTFW/scr/tools/fbxexporters/fbx_exporter_ui.py:1014-1030 | When only one step does anything, the loop's result is that step's |
| Export.SplitOn | ContentCreators/DCCTFW/scr/tools/fbxexporters/fbx_exporter_export.py:235 | Splitting on the pipe character gives at least one piece, the whole name when it has no pipe and several pieces otherwise, none holding a pipe |
| Export.LastPieceAfterLast | ContentCreators/DCCTFW/scr/tools/fbxexporters/fbx_exporter_export.py:235 | The last piece is the suffix of the name after its last pipe |
| Export.RemovePipe | ContentCreators/DCCTFW/scr/tools/fbxexporters/fbx_exporter_export.py:234-238 | The short name holds no pipe and is a suffix of the name; a name without a pipe is kept, and otherwise the suffix starts right after a pipe |
| Export.RemovePipeIdempotent | ContentCreators/DCCTFW/scr/tools/fbxexporters/fbx_exporter_export.py:234-238 | Removing the path twice is removing it once |
| Export.Kept | ContentCreators/DCCTFW/scr/tools/fbxexporters/fbx_exporter_export.py:179-192 | The export items kept are exactly those that exist in the scene |
| Export.Missing | ContentCreators/DCCTFW/scr/tools/fbxexporters/fbx_exporter_export.py:179-187 | The export items collected as missing are exactly those that do not exist |
| Export.TestModelsExist | ContentCreators/DCCTFW/scr/tools/fbxexporters/fbx_exporter_export.py:169-192 | The model comes back with exactly its existing export items, in order, and nothing else changed |
| Export.CollectMissing | ContentCreators/DCCTFW/scr/tools/fbxexporters/fbx_exporter_export.py:179-187 | The collecting loop computes the missing items in order |
| Export.RemoveMissing | ContentCreators/DCCTFW/scr/tools/fbxexporters/fbx_exporter_export.py:189-190 | Removing each missing item in turn, first occurrence each time, leaves exactly the existing items in order |
| Export.RemoveFirst | ContentCreators/DCCTFW/scr/tools/fbxexporters/fbx_exporter_export.py:189-190 | `list.remove(x)` succeeds exactly when x is in the list (ValueError otherwise) and removes one occurrence |
| Export.SaveAndZeroAsWritten | ContentCreators/DCCTFW/scr/tools/fbxexporters/fbx_exporter_export.py:208-213 | The loop as written keeps a saved matrix for every item and every earlier entry, keeps the scene's nodes, and zeroes exactly the listed items |
| Export.SavedAsWritten | ContentCreators/DCCTFW/scr/tools/fbxexporters/fbx_exporter_export.py:208-213 | As written, an item listed once keeps the matrix it had, an item listed more than once ends with the zero matrix saved, and an earlier entry for an unlisted item is left alone |
| Export.SaveAndZero | ContentCreators/DCCTFW/scr/tools/fbxexporters/fbx_exporter_export.py:208-213 | The corrected saving loop keeps each item's first saved value, keeps the scene's nodes, and zeroes exactly the listed items |
| Export.Restore | ContentCreators/DCCTFW/scr/tools/fbxexporters/fbx_exporter_export.py:217-219 | Restoring puts every listed item back to its saved matrix and leaves the others |
| Export.SavedValuesAreOriginal | ContentCreators/DCCTFW/scr/tools/fbxexporters/fbx_exporter_export.py:208-219 | With the corrected saving loop, every saved matrix is the one the item had before the export began |
| Export.ZeroThenRestore | ContentCreators/DCCTFW/scr/tools/fbxexporters/fbx_exporter_export.py:208-219 | With the corrected saving loop, zeroing the items and then restoring them gives back the scene exactly |
| Export.RepeatedItemStaysZeroed | ContentCreators/DCCTFW/scr/tools/fbxexporters/fbx_exporter_export.py:210-219 | As written, an item listed twice saves its already-zeroed matrix and stays zeroed after the restore |
| Export.ZeroItems | ContentCreators/DCCTFW/scr/tools/fbxexporters/fbx_exporter_export.py:208-213 | The saving loop as written computes SaveAndZeroAsWritten: each item's current matrix is saved, then set to zero |
| Export.RestoreItems | ContentCreators/DCCTFW/scr/tools/fbxexporters/fbx_exporter_export.py:217-219 | The restore loop computes Restore |
| Export.RestoreAfterSaveAsWritten | ContentCreators/DCCTFW/scr/tools/fbxexporters/fbx_exporter_export.py:208-219 | After zeroing and restoring as written the scene keeps its nodes, an item listed more than once stays at zero and every other node is as before; with no item repeated the scene is exactly the one it was |
| Export.PreExportModel | ContentCreators/DCCTFW/scr/tools/fbxexporters/fbx_exporter_export.py:194-221 | Only the existing items are exported, nothing when none exist; they are zeroed when the model's or the options' zero flag is set; afterwards an item listed more than once stays at zero, every other node is as before, and with no item repeated the scene is unchanged |
| Export.FbxTarget | ContentCreators/DCCTFW/scr/tools/fbxexporters/fbx_exporter_export.py:254 | The export path is the directory, a backslash, the name and ".fbx" |
| Export.ExportRig | ContentCreators/DCCTFW/scr/tools/fbxexporters/fbx_exporter_export.py:265-301 | The export selects the short names of the models and the root and targets the short model name; it answers False when selecting or exporting raises, and None when the selection is empty |
| Export.ExportAnimation | ContentCreators/DCCTFW/scr/tools/fbxexporters/fbx_exporter_export.py:240-263 | An animation is exported, and True answered, exactly when something is selected; the path is the directory and the name |
| ExporterData.GetValidKeysFromFileInfo | ContentCreators/DCCTFW/scr/tools/fbxexporters/fbx_exporter_data.py:637-653 | `get_valid_keys_from_fileInfo(p)` lists exactly the keys that contain p, in table order |
| ExporterData.CheckExistsLayer | ContentCreators/DCCTFW/scr/tools/fbxexporters/fbx_exporter_data.py:27-43 | `check_exists_layer(name)` is true exactly when some key contains the name as a substring |
| ExporterData.ObjectInData | ContentCreators/DCCTFW/scr/tools/fbxexporters/fbx_exporter_data.py:146-162 | `object_in_data` is true exactly when prefix plus name is a key |
| ExporterData.RemoveKey | ContentCreators/DCCTFW/scr/tools/fbxexporters/fbx_exporter_data.py:133-144 | `remove_key` removes the key from the table and changes nothing else |
| ExporterData.WriteRecords | ContentCreators/DCCTFW/scr/tools/fbxexporters/fbx_exporter_data.py:300-315 | The writer loop writes each record in turn and stops at the first that raises |
| ExporterData.BuildRecords | ContentCreators/DCCTFW/scr/tools/fbxexporters/fbx_exporter_data.py:655-705 | `build_actor`/`build_model`/`build_rig` read the records of the keys that contain the prefix, in key order |
| ExporterData.BuildClassFromData | ContentCreators/DCCTFW/scr/tools/fbxexporters/fbx_exporter_data.py:707-726 | With the `or` corrected, the model-layer and the scene-layer identifiers both build the model layers |
| ExporterData.BuildClassFromDataAsWritten | ContentCreators/DCCTFW/scr/tools/fbxexporters/fbx_exporter_data.py:707-726 | `build_class_from_data` as written, which the rename uses: the model-layer identifier builds the model layers, while the scene-layer identifier and any unknown one build nothing |
| ExporterData.SceneLayersNeverBuilt | ContentCreators/DCCTFW/scr/tools/fbxexporters/fbx_exporter_data.py:718-726 | As written, the scene-layer identifier builds nothing; corrected, it builds the layers |
| ExporterData.BuildClassFromDataAgrees | ContentCreators/DCCTFW/scr/tools/fbxexporters/fbx_exporter_data.py:718-726 | The correction changes nothing for any other identifier |
| ExporterData.BuildClass | ContentCreators/DCCTFW/scr/tools/fbxexporters/fbx_exporter_data.py:707-726 | `build_class_from_data` returns the build of the table as written |
| ExporterData.ModelLayersBuilt | ContentCreators/DCCTFW/scr/tools/fbxexporters/fbx_exporter_data.py:718-720 | The model-layer identifier builds exactly the model layers, both as written and corrected |
| ExporterData.EditEffect | ContentCreators/DCCTFW/scr/tools/fbxexporters/fbx_exporter_data.py:744-755 | An edit raises, writing nothing, when the build raises or the parent row is missing; otherwise the table is the build, updated where the selector picks, written back |
| ExporterData.EditRecords | ContentCreators/DCCTFW/scr/tools/fbxexporters/fbx_exporter_data.py:744-755 | The edit changes the table as EditEffect says |
| ExporterData.TryEditEffect | ContentCreators/DCCTFW/scr/tools/fbxexporters/fbx_exporter_data.py:1056-1067 | A raising edit writes nothing when the build, the parent row or any update raises, and otherwise writes the updated records back |
| ExporterData.TryEditRecords | ContentCreators/DCCTFW/scr/tools/fbxexporters/fbx_exporter_data.py:1056-1067 | The raising edit changes the table as TryEditEffect says |
| ExporterData.ChangeStartEndFrame | ContentCreators/DCCTFW/scr/tools/fbxexporters/fbx_exporter_data.py:728-755 | `change_start_end_frame` sets the start (type 1) or end (type 2) frame of the row's animations under the parent actor and writes the actors back |
| ExporterData.ActorWrittenBack | ContentCreators/DCCTFW/scr/tools/fbxexporters/fbx_exporter_data.py:418-421 | After a successful write, the last actor of a name reads back from its key, as the source reads it, as its normal form with the export list as one joined text |
| ExporterData.ChangeStartEndFrameStored | ContentCreators/DCCTFW/scr/tools/fbxexporters/fbx_exporter_data.py:744-755 | After the edit the stored actor holds the new frame in the chosen column and the old frame in the other |
| ExporterData.ChangeAnimationName | ContentCreators/DCCTFW/scr/tools/fbxexporters/fbx_exporter_data.py:757-779 | `change_animation_name` renames the parent actor's animations of the old name and writes the actors back |
| ExporterData.ChangeAnimationNameEdits | ContentCreators/DCCTFW/scr/tools/fbxexporters/fbx_exporter_data.py:772-779 | The rename gives exactly the animations of the old name under the parent the new name and changes no other field or record |
| ExporterData.ChangeOverridePath | ContentCreators/DCCTFW/scr/tools/fbxexporters/fbx_exporter_data.py:935-959 | `change_override_path` sets the override path (column 4) of the row's animations under the parent and removes the row's own key before the write |
| ExporterData.ChangeOverridePathKeepsActors | ContentCreators/DCCTFW/scr/tools/fbxexporters/fbx_exporter_data.py:950-959 | An actor named as the row is written back under its key, so the key removed before the write is present afterwards |
| ExporterData.SetMayaToDataRange | ContentCreators/DCCTFW/scr/tools/fbxexporters/fbx_exporter_data.py:1006-1023 | The playback range set is that of the last matching animation under the parent; nothing is set when none matches |
| ExporterData.PlaybackRangeUnique | ContentCreators/DCCTFW/scr/tools/fbxexporters/fbx_exporter_data.py:1017-1023 | With one matching actor and one matching animation, the range is that animation's start and end |
| ExporterData.Difference | ContentCreators/DCCTFW/scr/tools/fbxexporters/fbx_exporter_data.py:1063-1065 | The set difference holds exactly the layers of the first list not in the second, each once |
| ExporterData.DifferenceIgnoresExcluded | ContentCreators/DCCTFW/scr/tools/fbxexporters/fbx_exporter_data.py:1063-1065 | Adding layers that are all excluded does not change the difference |
| ExporterData.Unmute | ContentCreators/DCCTFW/scr/tools/fbxexporters/fbx_exporter_data.py:1063-1065 | Unmuting raises exactly when the muted text is None |
| ExporterData.MuteAppends | ContentCreators/DCCTFW/scr/tools/fbxexporters/fbx_exporter_data.py:1087-1091 | Muting appends the selection to the muted text after one separator, or stores the selection alone when nothing was muted |
| ExporterData.UnmuteUndoesMute | ContentCreators/DCCTFW/scr/tools/fbxexporters/fbx_exporter_data.py:1063-1089 | Unmuting the layers just muted gives what unmuting them before would have |
| ExporterData.RemoveSelectedAnimlayers | ContentCreators/DCCTFW/scr/tools/fbxexporters/fbx_exporter_data.py:1045-1067 | `remove_selected_animlayers` removes the selected layers from the parent's animation of the row and writes the actors back |
| ExporterData.SetSelectedAnimlayers | ContentCreators/DCCTFW/scr/tools/fbxexporters/fbx_exporter_data.py:1069-1093 | `set_selected_animlayers` appends the selected layers to the row's animation under the parent and writes the actors back |
| ExporterData.AnimlayersNeedASelection | ContentCreators/DCCTFW/scr/tools/fbxexporters/fbx_exporter_data.py:1057-1081 | With nothing selected neither edit reads or writes the table |
| ExporterData.RemoveEffect | ContentCreators/DCCTFW/scr/tools/fbxexporters/fbx_exporter_data.py:66-131 | A removal raises, writing nothing, when the build raises, the parent row is missing, or no parent or child index is found; otherwise the popped records are written back |
| ExporterData.RemoveRecord | ContentCreators/DCCTFW/scr/tools/fbxexporters/fbx_exporter_data.py:66-131 | The removal changes the table as RemoveEffect says |
| ExporterData.RemoveEffectUnique | ContentCreators/DCCTFW/scr/tools/fbxexporters/fbx_exporter_data.py:97-108 | With one matching parent and child, exactly that child is removed before the write |
| ExporterData.RemoveEffectMissing | ContentCreators/DCCTFW/scr/tools/fbxexporters/fbx_exporter_data.py:97-108 | With no matching child the removal raises TypeError, or AttributeError for a top-level row among records |
| ExporterData.RemoveModel | ContentCreators/DCCTFW/scr/tools/fbxexporters/fbx_exporter_data.py:88-108 | `remove_model` removes the row's model from its parent layer and writes the layers back |
| ExporterData.RemoveModelUnique | ContentCreators/DCCTFW/scr/tools/fbxexporters/fbx_exporter_data.py:97-108 | With one matching layer and model, the layers written are the old ones without that model |
| ExporterData.RemoveMissingModel | ContentCreators/DCCTFW/scr/tools/fbxexporters/fbx_exporter_data.py:97-108 | When no model of the parent layers is named as the row, the removal raises and writes nothing |
| ExporterData.RemoveAnimation | ContentCreators/DCCTFW/scr/tools/fbxexporters/fbx_exporter_data.py:110-131 | `remove_animation` removes the row's animation from its parent actor and writes the actors back |
| ExporterData.RemoveAnimationUnique | ContentCreators/DCCTFW/scr/tools/fbxexporters/fbx_exporter_data.py:120-131 | With one matching actor and animation, the actors written are the old ones without that animation |
| ExporterData.RemoveRigModel | ContentCreators/DCCTFW/scr/tools/fbxexporters/fbx_exporter_data.py:66-86 | `remove_rig_model` removes the row's model from its parent rig and writes the rigs back |
| ExporterData.RemoveRigModelUnique | ContentCreators/DCCTFW/scr/tools/fbxexporters/fbx_exporter_data.py:75-86 | With one matching rig and model, the rigs written are the old ones without that model |
| ExporterData.ChangeRigName | ContentCreators/DCCTFW/scr/tools/fbxexporters/fbx_exporter_data.py:781-809 | `change_rig_name` renames rig models of the old name in every rig, or renames the rig and removes its old key; another row kind raises UnboundLocalError |
| ExporterData.ChangeRigNameMovesKey | ContentCreators/DCCTFW/scr/tools/fbxexporters/fbx_exporter_data.py:794-809 | After a rig rename the old key is gone and every rig is stored under its name |
| ExporterData.RigKeyStaysOut | ContentCreators/DCCTFW/scr/tools/fbxexporters/fbx_exporter_data.py:437-440 | A rig name no record has is not written |
| ExporterData.ChangeRigInfluences | ContentCreators/DCCTFW/scr/tools/fbxexporters/fbx_exporter_data.py:961-981 | `change_rig_influences` sets the influences of the row's models under the parent rig and writes the rigs back |
| ExporterData.ChangeRigInfluencesStored | ContentCreators/DCCTFW/scr/tools/fbxexporters/fbx_exporter_data.py:961-981 | After the edit the rig stored under the parent's name reads back with exactly the models named like the row holding the new influences and every other field as before; wherever the source's reader reads it back, it gives the same |
| ExporterData.ChangeRigLayerPath | ContentCreators/DCCTFW/scr/tools/fbxexporters/fbx_exporter_data.py:983-1004 | `change_rig_layer_path` sets the rig path or the animation path of the row's rig and writes the rigs back |
| ExporterData.ChangeRigLayerPathStored | ContentCreators/DCCTFW/scr/tools/fbxexporters/fbx_exporter_data.py:996-1004 | After the edit the stored rig holds the new path in the chosen field and keeps the other; wherever the source's reader reads it back, it gives the same |
| ExporterData.RenameLayersIn | ContentCreators/DCCTFW/scr/tools/fbxexporters/fbx_exporter_data.py:880-885 | The rename loop renames the layers of the old name and removes the old key when one was renamed |
| ExporterData.RenameLayers | ContentCreators/DCCTFW/scr/tools/fbxexporters/fbx_exporter_data.py:880-895 | The layer branch of the rename changes the table as RenameLayersEffect says |
| ExporterData.ChangeLayerModelName | ContentCreators/DCCTFW/scr/tools/fbxexporters/fbx_exporter_data.py:860-895 | Corrected `change_layer_model_name`: a layer rename is refused only when the new layer key exists; model rows rename the parent's models; other rows raise UnboundLocalError |
| ExporterData.ChangeLayerModelNameAsWritten | ContentCreators/DCCTFW/scr/tools/fbxexporters/fbx_exporter_data.py:860-895 | As written, a layer rename is refused when some key merely contains the new layer key |
| ExporterData.DuplicateTestRefusesFreeName | ContentCreators/DCCTFW/scr/tools/fbxexporters/fbx_exporter_data.py:871-878 | As written, renaming to "a" beside a layer "ab" is refused though no layer "a" exists; corrected, the rename happens |
| ExporterData.ExactDuplicateTest | ContentCreators/DCCTFW/scr/tools/fbxexporters/fbx_exporter_data.py:159-162 | The exact test passes exactly when the new key is among the keys with the model-layer prefix |
| ExporterData.LayerKeyStaysOut | ContentCreators/DCCTFW/scr/tools/fbxexporters/fbx_exporter_data.py:309-313 | A layer name no record has is not written |
| ExporterData.RenameLayersMovesKey | ContentCreators/DCCTFW/scr/tools/fbxexporters/fbx_exporter_data.py:880-895 | After a layer rename the old key is gone and every layer is stored under its name |
| ExporterData.ChangeLayerPath | ContentCreators/DCCTFW/scr/tools/fbxexporters/fbx_exporter_data.py:897-913 | `change_layer_path` sets the path of the row's layer and writes the layers back |
| ExporterData.ChangeLayerPathStored | ContentCreators/DCCTFW/scr/tools/fbxexporters/fbx_exporter_data.py:908-913 | After the edit the stored layer holds the new path and its models unchanged |
| ExporterData.ChangeModelPath | ContentCreators/DCCTFW/scr/tools/fbxexporters/fbx_exporter_data.py:915-933 | `change_model_path` sets the path of the row's models under the parent layer and writes the layers back |
| ExporterData.ChangeModelPathStored | ContentCreators/DCCTFW/scr/tools/fbxexporters/fbx_exporter_data.py:915-933 | After the edit the layer stored under the parent's name keeps its own path, and exactly its models named like the row hold the new path |
| ExporterData.ChangeExportItemName | ContentCreators/DCCTFW/scr/tools/fbxexporters/fbx_exporter_data.py:833-858 | `change_export_item_name`, with the build as written, renames the item in the first model holding it and writes the layers back |
| ExporterData.ChangeExportItemNameSceneLayers | ContentCreators/DCCTFW/scr/tools/fbxexporters/fbx_exporter_data.py:848-858 | Asked about scene layers, the rename answers false and writes nothing, since the build as written finds no records |
| ExporterData.ChangeExportItemNameNoHolder | ContentCreators/DCCTFW/scr/tools/fbxexporters/fbx_exporter_data.py:848-858 | Nothing is written and False answered exactly when no model holds the item |
| ExporterData.ChangeExportItemNameFirst | ContentCreators/DCCTFW/scr/tools/fbxexporters/fbx_exporter_data.py:848-858 | The model changed is the first holder, and True is answered when the write succeeds |
| ExporterData.ItemRenamedAtItems | ContentCreators/DCCTFW/scr/tools/fbxexporters/fbx_exporter_data.py:851-854 | The holder's items swap one old name for the new, end with it, and nothing else in the layer changes |
| ExporterUi.SetExportOptions | ContentCreators/DCCTFW/scr/tools/fbxexporters/fbx_exporter_ui.py:919-946 | The options take the flags of the model or layer; only a model row sets the two override fields, from the model's switches; a layer passed as a model raises |
| ExporterUi.FirstDirOr | ContentCreators/DCCTFW/scr/tools/fbxexporters/fbx_exporter_ui.py:966-997 | The first candidate that is a directory, or the fallback when none is |
| ExporterUi.GetExportDir | ContentCreators/DCCTFW/scr/tools/fbxexporters/fbx_exporter_ui.py:948-1003 | No path gives nothing; a layer tries its path, then the path under the project, then the project; a model uses its own path when its override switch is set, and raises without one; other kinds give nothing |
| ExporterUi.GetExportDirectory | ContentCreators/DCCTFW/scr/tools/fbxexporters/fbx_exporter_ui.py:2738-2765 | No path gives nothing; otherwise the path, the path under the project, the project or the workspace, the first that is a directory |
| ExporterUi.ModelStep | ContentCreators/DCCTFW/scr/tools/fbxexporters/fbx_exporter_ui.py:1015-1030 | A model named as the row exports once to its directory under its name, with its own options when its switch is set; no directory exports nothing; a failing lookup raises |
| ExporterUi.ExportModelUnique | ContentCreators/DCCTFW/scr/tools/fbxexporters/fbx_exporter_ui.py:1013-1030 | With one matching layer and model, exporting is that model's step |
| ExporterUi.CharacterExporterUi.ExportModel | ContentCreators/DCCTFW/scr/tools/fbxexporters/fbx_exporter_ui.py:1005-1034 | `export_model` requests nothing without a project path, raises AttributeError for a top-level row when there are layers, and otherwise requests each matching model of each matching layer in order until a lookup raises |
| ExporterUi.CharacterExporterUi.ExportLayerModels | ContentCreators/DCCTFW/scr/tools/fbxexporters/fbx_exporter_ui.py:1016-1030 | The inner loop over a layer's models gathers each model's step |
| ExporterUi.SetList | ContentCreators/DCCTFW/scr/tools/fbxexporters/fbx_exporter_ui.py:302-303 | `list(set(xs))` holds each element of xs exactly once |
| ExporterUi.Without | ContentCreators/DCCTFW/scr/tools/fbxexporters/fbx_exporter_ui.py:2686-2695 | Removing keeps only items of the list, shortens it exactly when something to remove was present, and keeps it otherwise |
| ExporterUi.WithoutDistinct | ContentCreators/DCCTFW/scr/tools/fbxexporters/fbx_exporter_ui.py:2692-2695 | On a duplicate-free list, removing leaves exactly the items not removed, each once |
| ExporterUi.RemoveFromDistinct | ContentCreators/DCCTFW/scr/tools/fbxexporters/fbx_exporter_ui.py:2693-2694 | `remove(x)` on a duplicate-free list leaves exactly the other items |
| ExporterUi.NewModel | ContentCreators/DCCTFW/scr/tools/fbxexporters/fbx_exporter_ui.py:1078-1088 | A new model holds the node as its one export item, its UUID, the typed name or the node name, and default flags |
| ExporterUi.NewModels | ContentCreators/DCCTFW/scr/tools/fbxexporters/fbx_exporter_ui.py:1078-1088 | One new model per node added, in order |
| ExporterUi.AddToLayers | ContentCreators/DCCTFW/scr/tools/fbxexporters/fbx_exporter_ui.py:1066-1088 | Adding models keeps the number of layers |
| ExporterUi.AddToNoLayer | ContentCreators/DCCTFW/scr/tools/fbxexporters/fbx_exporter_ui.py:1066-1067 | With no layer of the name nothing is added |
| ExporterUi.AddToOneLayer | ContentCreators/DCCTFW/scr/tools/fbxexporters/fbx_exporter_ui.py:1066-1088 | With one layer of the name, models for the nodes not yet named in it are appended to it |
| ExporterUi.AddMultipleModelsUnique | ContentCreators/DCCTFW/scr/tools/fbxexporters/fbx_exporter_ui.py:1066-1093 | The nodes that become models are exactly those added that the layer does not already name |
| ExporterUi.CharacterExporterUi.AddMultipleModels | ContentCreators/DCCTFW/scr/tools/fbxexporters/fbx_exporter_ui.py:1036-1098 | `add_multiple_models` appends the new models to the layer and writes every layer; nothing happens when nothing is added |
| ExporterUi.CharacterExporterUi.AddToLayerList | ContentCreators/DCCTFW/scr/tools/fbxexporters/fbx_exporter_ui.py:1066-1088 | The loop over layers computes AddToLayers |
| ExporterUi.AddItemsInModels | ContentCreators/DCCTFW/scr/tools/fbxexporters/fbx_exporter_ui.py:297-305 | Adding items keeps the number of models |
| ExporterUi.AddItemsInLayers | ContentCreators/DCCTFW/scr/tools/fbxexporters/fbx_exporter_ui.py:297-305 | Adding items keeps the number of layers |
| ExporterUi.AddItemsInNoModel | ContentCreators/DCCTFW/scr/tools/fbxexporters/fbx_exporter_ui.py:300-305 | With no model of the row's name nothing changes |
| ExporterUi.AddItemsInOneModel | ContentCreators/DCCTFW/scr/tools/fbxexporters/fbx_exporter_ui.py:300-305 | The matching model's items become the set of the selection and its items |
| ExporterUi.AddItemsInNoLayer | ContentCreators/DCCTFW/scr/tools/fbxexporters/fbx_exporter_ui.py:297-305 | With no layer named as the parent nothing changes |
| ExporterUi.AddItemsInOneLayer | ContentCreators/DCCTFW/scr/tools/fbxexporters/fbx_exporter_ui.py:297-305 | With one matching layer, only its models are updated |
| ExporterUi.AddItemToModelUnique | ContentCreators/DCCTFW/scr/tools/fbxexporters/fbx_exporter_ui.py:297-305 | With one matching layer and model, the model's items become exactly the selection and its old items, each once |
| ExporterUi.CharacterExporterUi.AddItemToModel | ContentCreators/DCCTFW/scr/tools/fbxexporters/fbx_exporter_ui.py:281-308 | `add_item_to_model` updates the matching model's items and writes the layers when one matched |
| ExporterUi.CharacterExporterUi.AddItemsInLayerList | ContentCreators/DCCTFW/scr/tools/fbxexporters/fbx_exporter_ui.py:297-305 | The loop over layers computes AddItemsInLayers |
| ExporterUi.CharacterExporterUi.AddItemsInLayerModels | ContentCreators/DCCTFW/scr/tools/fbxexporters/fbx_exporter_ui.py:300-305 | The loop over models computes AddItemsInModels |
| ExporterUi.CharacterExporterUi.AddModelExportItem | ContentCreators/DCCTFW/scr/tools/fbxexporters/fbx_exporter_ui.py:2701-2736 | `add_model_export_item` unions the nodes into the row's rig models and writes the rigs when one matched; a top-level row raises among rigs |
| ExporterUi.AddModelExportItemEffect | ContentCreators/DCCTFW/scr/tools/fbxexporters/fbx_exporter_ui.py:2729-2731 | The new items are exactly the old and the added, each once |
| ExporterUi.CharacterExporterUi.RemoveModelExportItem | ContentCreators/DCCTFW/scr/tools/fbxexporters/fbx_exporter_ui.py:2664-2699 | `remove_model_export_item` removes the nodes from the row's rig models and writes the rigs when any was removed; a top-level row raises among rigs |
| ExporterUi.RemoveModelExportItemEffect | ContentCreators/DCCTFW/scr/tools/fbxexporters/fbx_exporter_ui.py:2692-2695 | The items left are exactly the old ones not removed, each once, and a change is reported exactly when the list changed |
| ProjectData.GetProjectPath | ContentCreators/cctfw_project_shared/ccfw_project_data/__init__.py:17-33 | The project path is the environment variable's value when it is set and non-empty, and nothing otherwise |
| ProjectData.SetPaths | ContentCreators/cctfw_project_shared/ccfw_project_data/__init__.py:36-80 | Without a project path the table cannot be built (TypeError); otherwise it names every path, the tool root and project with a trailing backslash, the XML and JSON under the project, site-packages under libs |
| ProjectData.PathTableSize | ContentCreators/cctfw_project_shared/ccfw_project_data/__init__.py:48-80 | The table has thirteen paths |
| ProjectData.KeyTextInjective | ContentCreators/cctfw_project_shared/ccfw_project_data/__init__.py:51-80 | No two path names share a dictionary key string |
| ProjectData.KeyedPaths | ContentCreators/cctfw_project_shared/ccfw_project_data/__init__.py:51-80 | The string-keyed dictionary holds, under each name's key, that name's path |
| ProjectData.KeyedTableSize | ContentCreators/cctfw_project_shared/ccfw_project_data/__init__.py:51-80 | The dictionary `set_paths` returns has thirteen distinct string keys, each assigned once |
| ProjectData.ScrPathPrefix | ContentCreators/cctfw_project_shared/ccfw_project_data/__init__.py:48-80 | Every path under `scr` extends the `scr` path |
| ProjectData.PathRoots | ContentCreators/cctfw_project_shared/ccfw_project_data/__init__.py:48-80 | Each project path lies under the project and each tool path under the tool root |
| Preferences.ReadPrefs | ContentCreators/DCCTFW/scr/libs/preferenceutilities.py:17-36 | The stored dictionary, or an empty one when there is no file |
| Preferences.ReadPrefsKey | ContentCreators/DCCTFW/scr/libs/preferenceutilities.py:39-46 | The stored value of the key, or the default when it is not stored |
| Preferences.NestedLookupMisses | ContentCreators/DCCTFW/scr/libs/preferenceutilities.py:49-61 | Once one step of a nested lookup misses, the whole lookup is None |
| Preferences.ReadPrefsNestedKey | ContentCreators/DCCTFW/scr/libs/preferenceutilities.py:49-61 | The loop follows the keys one dictionary level at a time, gives the whole dictionary for no keys, and None at the first miss |
| Preferences.Merge | ContentCreators/DCCTFW/scr/libs/preferenceutilities.py:64-75 | A listed key takes the new value, or is deleted when the new dictionary lacks it; unlisted keys keep their stored value |
| Preferences.WritePrefs | ContentCreators/DCCTFW/scr/libs/preferenceutilities.py:64-85 | With no keys the new dictionary is written whole; with keys, the stored one merged on those keys |

## Left out

- Records are values, so aliasing between the UI's records and the data layer's is not modelled. For example, `test_models_exist` prunes the UI's own model object in place; `Export.TestModelsExist` returns the pruned model instead.
- The UI reloads its trees from the table after every edit (`populate_*_tree_ui`). The model keeps the edited list in the UI object instead. Tree widgets, dialogs, menus and logging are not modelled.
- ExporterUi.CharacterExporterUi.AddItemToModel: writes once after the loop rather than after each matching model. When no write raises, the table is the same, because each write rewrites every layer. When a write raises, the source stops at the first matching model; the model's state then differs.
- The order of Python's `set()` is not specified. `SetList` and `Difference` keep first occurrences in order, and their contracts state only membership and the absence of duplicates.
- These Maya and operating-system queries are parameters, not modelled:
  - the selection and its group or mesh filters;
  - `objExists`;
  - node UUIDs;
  - `playbackOptions`;
  - the animation layers selected;
  - `os.path.isdir`;
  - the workspace path;
  - the tool root and the environment.
- `get_selected_animlayers` is a Maya query; its answer is the `selected` parameter of the animation-layer edits.
- The XML text codec (`ElementTree.tostring`, `minidom` pretty-printing and the unicode-escape decoding) is treated as an identity on elements. A value that does not parse is a raw text entry that every reader refuses.
- These operations are not modelled:
  - `read_fileInfo_xml_from_disk`, `export_xml` and `import_xml` (disk I/O);
  - `write_user_option_data_to_prefs` and `populate_users_options_class` (preference file I/O);
  - `trigger_save` (a Maya save);
  - `populate_models_classes_from_string` (the same reader, on a string);
  - the data layer's `export_animation` (a stub that only prints);
  - the commented-out `change_rig_layer_name`.
- The FBX option calls (`export_global_options`, `export_*_options`, `export_*_setup`) and Perforce checkout are foreign calls. `Export.ExportRig`, `Export.ExportAnimation` and `Export.PreExportModel` answer the selection and path they would hand to `FBXExport`.
- Export.PreExportModel: the world matrices are an abstract value type with a given zero; matrix arithmetic is not modelled.
- The preference file's JSON parsing, the `ast.literal_eval` fallback, and the file writing are not modelled. JSON numbers are integers. `readPrefsNestedKey` follows dictionary keys only, not integer list indices.
- ProjectData.GetProjectPath: the `os.path.isdir` check inside its `try` has no effect on the result and is left out.
- Edits.RemoveChildFromOtherParent documents a quirk of the removal loops. The child index can come from an earlier matching parent while the parent index is the last.

## Findings

The operations follow these lines as written. The one exception is `ExporterData.ChangeLayerModelName`, which uses the exact duplicate test; `ExporterData.ChangeLayerModelNameAsWritten` is the code as written. Each corrected definition sits beside the code as written, and the intended property is proved about it.

| source | as written | input that shows it | evidently intended | confidence | as-written member | corrected member |
|---|---|---|---|---|---|---|
| ContentCreators/DCCTFW/scr/tools/fbxexporters/fbx_exporter_data.py:485-486 | An actor's `export_items` text is appended whole, not split | An actor with items ["a", "b"] reads back with the one item "a, b"; an actor with no items reads back with [None], and the next write's join raises TypeError | Split the text as the model reader does (590-594) | medium, not executed | Codec.ActorItemsComeBackJoined | Codec.ActorRoundTrip |
| ContentCreators/DCCTFW/scr/tools/fbxexporters/fbx_exporter_data.py:527-528 | The rig's `export_items` text is split without a None guard (also 539-540 for rig models) | A new rig with no export items is written as an empty element, read back as None, and `None.split` raises AttributeError | Guard the split as the model reader does (590-594) | high, not executed | Codec.FreshRigUnreadable | Codec.RigRoundTrip |
| ContentCreators/DCCTFW/scr/tools/fbxexporters/fbx_exporter_data.py:38-43 | `check_exists_layer` tests whether some key contains the name as a substring | A layer "ab" exists; renaming another layer to "a" is refused as a duplicate | Refuse only when the exact layer key exists | medium, not executed | ExporterData.DuplicateTestRefusesFreeName | ExporterData.ExactDuplicateTest |
| ContentCreators/DCCTFW/scr/tools/fbxexporters/fbx_exporter_data.py:723 | `identifier == (model_layer_identifier or scene_layer_identifier)` compares with the first identifier only | The scene-layer identifier builds nothing | Build the model layers for either identifier | high, not executed | ExporterData.SceneLayersNeverBuilt | ExporterData.BuildClassFromData |
| ContentCreators/DCCTFW/scr/tools/fbxexporters/fbx_exporter_export.py:210-219 | The matrix of each export item is saved just before it is zeroed, item by item | An item listed twice saves its already-zeroed matrix the second time, and the restore leaves it zeroed | Save each item's original matrix once | low, not executed | Export.RepeatedItemStaysZeroed | Export.ZeroThenRestore |
