# Mundi engine core, modelled in Dafny

Mundi is a C++ game engine with a Python reflection code generator. This
project models two parts of it and proves properties of the models.

**The reflection code generator.** This is the part modelled most fully.
- `CodeGenParser` reads the text of an annotated C++ header. It finds each
  `UPROPERTY(...)` and `UFUNCTION(...)` site and extracts its argument text
  by parenthesis matching. It then recovers the declared type and name and
  builds a class record.
- The property type of each declaration comes from an ordered
  classification table: the first rule that matches wins.
- Three emitters turn a class record into registration text:
  - `BuildToolsPropertyGenerator` decides the spawnable/component mark by
    walking the ancestry.
  - `ToolsPropertyGenerator`, the older copy, looks only at the direct
    parent.
  - `LuaBindingGenerator` writes the Lua binding block.

**Sequential data-structure logic of the engine.**
- `ObjectModel`: class descriptors with the ancestry check, the class
  registry, the UUID counter and the checked cast.
- `Delegates`: the multicast delegate with increasing handles.
- `InputManager`: keyboard, mouse and gamepad state with press and
  release edges.
- The particle system:
  - `ParticleEmitter`: the emitter's index permutation with swap-remove.
  - `ParticleEventReceiver`: the event spawn and kill receivers.
  - `ParticleLODLevel`: the LOD level's module caches.
  - `ParticleDefinitions`: the data container's size bookkeeping.
- Spatial indexing:
  - `Bounds`: axis-aligned box algebra.
  - `Octree`: an octree with a depth bound.
  - `WorldPartition`: the world partition's de-duplicated dirty queue.
- Rendering support:
  - `Renderer`: the line batch.
  - `Enums`: the show-flag bit algebra and the archive field order.
  - `RenderSettings`: per-world render settings.
  - `SkinningStats` and `RagdollStats`: statistics counters.
- Skeletons and physics assets: `Skeleton`, `SkeletalMeshComponent`,
  `RagdollSystem`, `PhysicsAsset`, `SkeletalMesh` and
  `SPhysicsAssetEditorWindow`.
- Editor and world helpers:
  - `SViewerWindow`: viewer tabs.
  - `SceneManagerWidget`: the scene tree.
  - `ClothComponent`: cloth grid generation.
  - `Material`: material parameter resolution.
  - `World`: actor naming and UUID reconciliation.
  - `TargetActorTransformWidget`, `PrimitiveSpawnWidget` and
    `ContentBrowserWindow`: path helpers, the spawn panel and the file
    browser.
  - `Actor`: the actor's component bookkeeping.
- Shared helpers live in `Text`, `Sequences` and `FixedWidth`.

**Modelling conventions.**
- Each source file is one module.
- Code that works on values (the generators, the path helpers) is
  modelled as datatypes, functions and lemmas. The octree, which the
  engine updates in place, is also modelled on values (see "Left out").
- Objects whose methods update fields are modelled as classes:
  - the input manager, the delegate, the emitter instance, the LOD level,
    the partition manager, the renderer, the statistics managers, the
    editor and viewer windows, the material instances, the world and the
    actor.
  - Each method is specified by a function of the old state.
- Null pointers are `Option`s.
- Floats are reals, except where the source's truncation matters: there it
  is written out.
- Unsigned fixed-width counters wrap explicitly. There are two exceptions:
  - the particle emitter's 16-bit index table (see "Left out" and "Findings");
  - the delegate's `size_t` handle counter, which is an unbounded `nat` (see
    "Left out").

## Model

| member | source | states |
|---|---|---|
| Text.Lower | Mundi/Tools/CodeGenerator/parser.py:27 | lower-casing keeps the length, turns each ASCII capital into its small letter and leaves every other character as it is (ASCII only) |
| Text.Strip | Mundi/Tools/CodeGenerator/parser.py:169 | `str.strip()` has no whitespace at either end and is no longer than its input |
| Text.StripSlice | Mundi/Tools/CodeGenerator/parser.py:208 | the stripped text is a slice of the input that only whitespace surrounds |
| Text.SplitNoSeparator | Mundi/Tools/CodeGenerator/parser.py:261 | no part of `str.split(c)` contains the separator |
| Text.JoinSplit | Mundi/Tools/CodeGenerator/parser.py:296 | joining the parts of `str.split(c)` with `c` gives back the input |
| Text.SplitCount | Mundi/Tools/CodeGenerator/parser.py:261 | `str.split(c)` gives one part more than the input has separators |
| CodeGenParser.ArrayRuleFirst | Mundi/Tools/CodeGenerator/parser.py:25-45 | a property is given the array macro exactly when its lower-cased type mentions `tarray`, whatever pointer, curve, view or range it also has |
| CodeGenParser.PointerKindsNeedPointer | Mundi/Tools/CodeGenerator/parser.py:47-66 | the texture, mesh, material and audio macros are only chosen for pointer types that mention no container, curve or shader resource view |
| CodeGenParser.RangeRuleLast | Mundi/Tools/CodeGenerator/parser.py:68-72 | the range macro is chosen exactly for ranged properties that are not pointers and mention no container, curve or view |
| CodeGenParser.LeadingArrayElement | Mundi/Tools/CodeGenerator/parser.py:32-33 | for a type that begins `tarray<` the inner search yields the whole word after it, so `TArray<UTexture*>` reads `utexture` |
| CodeGenParser.ArrayElementKind | Mundi/Tools/CodeGenerator/parser.py:32-45 | such a container is an array whose element kind follows that word |
| CodeGenParser.SpanClosed | Mundi/Tools/CodeGenerator/parser.py:136-146 | when a balanced text is followed by `)`, the span is exactly that text (nested pairs included) and the end index is one past the `)` |
| CodeGenParser.SpanUnclosed | Mundi/Tools/CodeGenerator/parser.py:136-146 | when the group never closes the scan runs to the end and the span drops the last character, with end index the text length, instead of failing |
| CodeGenParser.ExtractBalancedParens | Mundi/Tools/CodeGenerator/parser.py:136-146 | the depth-tracking loop returns the span above, and it stops either at the end of the text or where the depth first returns to zero |
| CodeGenParser.FindMarkerLeftmost | Mundi/Tools/CodeGenerator/parser.py:118-155 | the search for `UPROPERTY(` finds a marker whenever one exists at or after the position, and none earlier than the one found |
| CodeGenParser.SitesOrdered | Mundi/Tools/CodeGenerator/parser.py:149-175 | every scanned site's argument span lies after its marker and inside the text, and before the next site's marker: the scan advances and never rescans |
| CodeGenParser.SitesCover | Mundi/Tools/CodeGenerator/parser.py:149-175 | every marker after the start is either a site's own marker or lies inside an earlier site's argument span |
| CodeGenParser.DeclsOfAppend | Mundi/Tools/CodeGenerator/parser.py:163-172 | the declarations of two runs of sites are those of each run, in order; a site whose lookahead matches no declaration contributes nothing |
| CodeGenParser.ParseUPropertyDeclarations | Mundi/Tools/CodeGenerator/parser.py:149-175 | the scanner loop returns exactly the (metadata, type, name) triples of the sites in order |
| CodeGenParser.MatchDecl | Mundi/Tools/CodeGenerator/parser.py:166 | a declaration matched in the 200-character lookahead always has a non-empty name |
| CodeGenParser.KeyValueFromNoQuote | Mundi/Tools/CodeGenerator/parser.py:250-287 | a `key = "value"` search yields a value with no quotation mark in it |
| CodeGenParser.RangeBoundsMeaning | Mundi/Tools/CodeGenerator/parser.py:258-265 | reading the range fails exactly when a bound is not a number; otherwise bounds are present exactly when the range has two comma parts, and they are those two numbers |
| CodeGenParser.PropertyOfMeaning | Mundi/Tools/CodeGenerator/parser.py:245-272 | a property fails exactly on a bad range bound; otherwise it holds the declaration's name and type with the category, editable flag, range and tooltip of the metadata or their defaults |
| CodeGenParser.LastSpaceIsLast | Mundi/Tools/CodeGenerator/parser.py:299 | the split point is the last whitespace character of the segment |
| CodeGenParser.SplitParamNameHasNoSpace | Mundi/Tools/CodeGenerator/parser.py:299-303 | the parameter name read by `rsplit(None, 1)` holds no whitespace |
| CodeGenParser.SplitParamRejoin | Mundi/Tools/CodeGenerator/parser.py:299-303 | a parameter read from a segment gives the segment back as its type, a non-empty whitespace run and its name |
| CodeGenParser.SegmentParamsStep | Mundi/Tools/CodeGenerator/parser.py:297-303 | each further segment appends its parameter, when it splits into two parts, at the end |
| CodeGenParser.ParamsBound | Mundi/Tools/CodeGenerator/parser.py:295-303 | there are never more parameters than comma-separated segments |
| CodeGenParser.ParseSegments | Mundi/Tools/CodeGenerator/parser.py:297-303 | the parameter loop yields one parameter per segment that splits into a type and a name, in order |
| CodeGenParser.ParseParameters | Mundi/Tools/CodeGenerator/parser.py:295-303 | blank parameter text gives no parameters; otherwise those of its comma segments |
| CodeGenParser.ParseFunction | Mundi/Tools/CodeGenerator/parser.py:274-305 | the function record has the display name of the metadata or its own name, the Lua flag exactly when `LuaBind` occurs in the metadata, and the parsed parameters |
| CodeGenParser.ParameterTypesStringShape | Mundi/Tools/CodeGenerator/parser.py:92-97 | the type list is empty exactly when there are no parameters, and otherwise starts with `, ` and the first parameter's type |
| CodeGenParser.NaiveParameterSplit | Mundi/Tools/CodeGenerator/parser.py:296 | no parameter type or name holds a comma, even one a template argument list such as `TMap<int, float>` needed |
| CodeGenParser.FunctionMatchesOrdered | Mundi/Tools/CodeGenerator/parser.py:121-125 | the `UFUNCTION` matches lie in the text, never overlap and come in source order (with line 206 of the same file) |
| CodeGenParser.DefaultProperties | Mundi/Tools/CodeGenerator/parser.py:219-241 | `AActor` and `UActorComponent`, and no other class, get one default editable `ObjectName: FName` property |
| CodeGenParser.CollectOkMeaning | Mundi/Tools/CodeGenerator/parser.py:201-203 | collecting parsed items fails exactly when some item fails; otherwise it holds each item's value at that item's position |
| CodeGenParser.CollectOkSticky | Mundi/Tools/CodeGenerator/parser.py:201-203 | once an item fails, later items leave the failure as it is |
| CodeGenParser.PropertiesOfMeaning | Mundi/Tools/CodeGenerator/parser.py:245-272 | a header's properties fail exactly when some declaration has a bad range bound, and are otherwise one parsed property per declaration (with lines 199-203 of the same file) |
| CodeGenParser.ParseProperties | Mundi/Tools/CodeGenerator/parser.py:199-203 | the property loop yields one property per declaration in order and stops at the first bad range |
| CodeGenParser.FunctionParsedUnique | Mundi/Tools/CodeGenerator/parser.py:206-218 | the description of a parsed function fixes every field of its record |
| CodeGenParser.ParseFunctions | Mundi/Tools/CodeGenerator/parser.py:206-218 | the `finditer` loop yields one function per match, in order |
| CodeGenParser.ParseHeader | Mundi/Tools/CodeGenerator/parser.py:177-243 | a header without the reflection marker or class line is skipped; it fails exactly when a declaration has a bad range; otherwise it holds the class, its default property first, its properties and functions in order |
| BuildToolsPropertyGenerator.AncestorWithinTransitive | Mundi/BuildTools/CodeGenerator/property_generator.py:51-54 | ancestry through the parent map composes: an ancestor of an ancestor is an ancestor, within the sum of the steps |
| BuildToolsPropertyGenerator.MarkTypeDecision | Mundi/BuildTools/CodeGenerator/property_generator.py:45-55 | abstract classes, the two root classes and classes without ancestry information get no mark; a class is spawnable exactly when it derives from `AActor`, and a component exactly when it derives from `UActorComponent` and not from `AActor` |
| BuildToolsPropertyGenerator.IndirectActorIsSpawnable | Mundi/BuildTools/CodeGenerator/property_generator.py:51-52 | a class two steps below `AActor` is spawnable: the derivation test is transitive |
| BuildToolsPropertyGenerator.EmptyBlockLines | Mundi/BuildTools/CodeGenerator/property_generator.py:61-74 | with no properties the block is the begin line, the mark line (possibly empty) and the end line, framed by newlines |
| BuildToolsPropertyGenerator.RenderTemplateLines | Mundi/BuildTools/CodeGenerator/property_generator.py:10-27 | the template renders the begin line, the mark line only for a marked class, one line per property in order, and the end line |
| BuildToolsPropertyGenerator.GenerateLines | Mundi/BuildTools/CodeGenerator/property_generator.py:36-82 | `generate` is the empty block for a class without properties and the rendered template otherwise, with the display name and description defaulting to the class name and `Auto-generated <name>` |
| ToolsPropertyGenerator.LegacyMarkDecision | Mundi/Tools/CodeGenerator/property_generator.py:43-49 | `AActor` gets no mark; a class is spawnable exactly when its immediate parent is `AActor`, and every other class, plain objects included, is a component |
| ToolsPropertyGenerator.LegacyGenerateLines | Mundi/Tools/CodeGenerator/property_generator.py:51-72 | the legacy empty block uses the fixed descriptions `Auto-generated actor`/`Auto-generated component`; otherwise the template is rendered as in the newer generator |
| ToolsPropertyGenerator.SameOutputWhenMarksAgree | Mundi/Tools/CodeGenerator/property_generator.py:66-72 | for a class with properties the two generators print the same block whenever they choose the same mark |
| ToolsPropertyGenerator.IndirectActorDivergence | Mundi/Tools/CodeGenerator/property_generator.py:46-49 | a class `X : B : AActor` is a component for the legacy generator but spawnable for the newer one |
| ToolsPropertyGenerator.PlainObjectDivergence | Mundi/Tools/CodeGenerator/property_generator.py:48-49 | a plain `UObject` subclass is a component for the legacy generator and unmarked for the newer one |
| LuaBindingGenerator.ArrayPtrFromLeftmost | Mundi/BuildTools/CodeGenerator/lua_generator.py:65 | the search for `TArray<\s*(\w+)\s*\*\s*>` finds the leftmost match, and none when no position matches |
| LuaBindingGenerator.ArrayPtrAtWritten | Mundi/BuildTools/CodeGenerator/lua_generator.py:65-68 | `TArray<W*>` for a word `W` matches with inner type `W` |
| LuaBindingGenerator.RemoveCharMeaning | Mundi/BuildTools/CodeGenerator/lua_generator.py:77 | `replace('*', '')` leaves no `*` and keeps every other character's count |
| LuaBindingGenerator.ArrayPtrInnerMeaning | Mundi/BuildTools/CodeGenerator/lua_generator.py:62-68 | an inner type is found only for a type holding `TArray<`, `*>` and a `*`, and it is a non-empty word |
| LuaBindingGenerator.BaseTypeMeaning | Mundi/BuildTools/CodeGenerator/lua_generator.py:77 | the base type of a pointer type holds no `*` and no surrounding whitespace; any other type is its own base type |
| LuaBindingGenerator.LuaPropOfMeaning | Mundi/BuildTools/CodeGenerator/lua_generator.py:58-79 | a property is never both an array of pointers and a pointer; it is an array of pointers exactly when it has an inner type, and a pointer exactly when its type holds `*` and it is not an array of pointers |
| LuaBindingGenerator.ArrayPtrWritten | Mundi/BuildTools/CodeGenerator/lua_generator.py:62-68 | a `TArray<W*>` property is bound as an array of pointers to `W` |
| LuaBindingGenerator.SpacedArrayPtrIsPointer | Mundi/BuildTools/CodeGenerator/lua_generator.py:62-77 | `TArray<USound* >` matches the pattern but fails the `'*>' in type` pre-test, so it is bound as a plain pointer with base type `TArray<USound >` |
| LuaBindingGenerator.BoundFunctionsMeaning | Mundi/BuildTools/CodeGenerator/lua_generator.py:51-54 | the functions bound are exactly the `LuaBind` ones, in their order |
| LuaBindingGenerator.Generate | Mundi/BuildTools/CodeGenerator/lua_generator.py:48-95 | the generator's property loop and filter produce the binding text of the class |
| LuaBindingGenerator.PlaceholderIffNothingBound | Mundi/BuildTools/CodeGenerator/lua_generator.py:81-89 | the placeholder block is printed exactly when the class has no property and no `LuaBind` function |
| LuaBindingGenerator.RenderIsNotPlaceholder | Mundi/BuildTools/CodeGenerator/lua_generator.py:10-39 | a block with something bound is never the placeholder text |
| LuaBindingGenerator.RenderLuaLines | Mundi/BuildTools/CodeGenerator/lua_generator.py:10-39 | the template renders the begin line, `{`, one entry per property in order, one per bound function in order, `}` and the end line |
| ObjectModel.UClass.constructor | TL2/Object.h:19-25 | a descriptor keeps the name, super descriptor and size it is built with, and its super chain ends |
| ObjectModel.UClass.IsChildOf | TL2/Object.h:26-32 | the walk up the super chain answers true exactly when the base is non-null and on the chain |
| ObjectModel.ChildOfReflexive | TL2/Object.h:26-32 | every class is a child of itself |
| ObjectModel.ChildOfTransitive | TL2/Object.h:26-32 | a child of a child of `c` is a child of `c` |
| ObjectModel.ChildOfDepth | TL2/Object.h:26-32 | an ancestor sits no deeper in the hierarchy, and strictly higher when it is a different class |
| ObjectModel.ChildOfAntisymmetric | TL2/Object.h:26-32 | two classes that are each other's children are the same class |
| ObjectModel.FirstNamed | TL2/Object.h:49-56 | the index of the first registered class with the name, or the registry's length when none has it |
| ObjectModel.ClassRegistry.constructor | TL2/Object.h:34-39 | the registry starts empty |
| ObjectModel.ClassRegistry.SignUpClass | TL2/Object.h:41-47 | a non-null class is appended to the registry; a null one changes nothing |
| ObjectModel.ClassRegistry.FindClass | TL2/Object.h:49-56 | null exactly when no registered class has the name; otherwise the first one that has it |
| ObjectModel.FirstNamedAppend | TL2/Object.h:41-56 | registering a class does not change which class an earlier match finds |
| ObjectModel.SignUpThenFind | TL2/Object.h:41-56 | after a class is registered, its name is found, and it is the class found unless an earlier one shares the name |
| ObjectModel.UUIDCounter.constructor | TL2/Object.h:146-147 | the counter starts at 1 |
| ObjectModel.UUIDCounter.PeekNextUUID | TL2/Object.h:112-113 | peeking returns the next UUID, a 32-bit value, and changes nothing |
| ObjectModel.UUIDCounter.SetNextUUID | TL2/Object.h:115-116 | the next UUID becomes the given value |
| ObjectModel.UUIDCounter.GenerateUUID | TL2/Object.h:118-119 | returns the current counter and advances it by one modulo 2^32 |
| ObjectModel.Advance | TL2/Object.h:118-119 | advancing the counter stays within 32 bits |
| ObjectModel.AdvanceStep | TL2/Object.h:118-119 | advancing `k` times then once is advancing `k + 1` times |
| ObjectModel.AdvanceDistinct | TL2/Object.h:118-119 | fewer than 2^32 consecutive UUIDs are pairwise distinct |
| ObjectModel.UObject.constructor | TL2/Object.h:71 | a new object takes the counter's current value as its UUID and advances the counter |
| ObjectModel.UObject.IsA | TL2/Object.h:108-110 | an object is an `A` exactly when its class is a child of `A` |
| ObjectModel.Cast | TL2/Object.h:150-160 | the cast returns the object itself exactly when it is non-null and of the target class, and null otherwise |
| ObjectModel.CastUpward | TL2/Object.h:150-160 | an object that casts to a class also casts to every ancestor of that class |
| Delegates.TDelegate.constructor | Mundi/Delegates.h:16 | a delegate starts with no handlers and handle 1 next |
| Delegates.TDelegate.Add | Mundi/Delegates.h:18-23 | returns the next handle, which is at least 1, appends the handler under it and advances the counter; the handles stay increasing |
| Delegates.TDelegate.AddDynamic | Mundi/Delegates.h:25-35 | binds a member function under a fresh handle exactly as `Add` does |
| Delegates.TDelegate.Broadcast | Mundi/Delegates.h:37-45 | calls every non-empty handler once, in the order they were added |
| Delegates.TDelegate.Remove | Mundi/Delegates.h:47-55 | drops exactly the entries with that handle, keeping the others in order; the counter is unchanged |
| Delegates.TDelegate.Clear | Mundi/Delegates.h:57-60 | drops every handler but keeps the handle counter, so old handles are never reused |
| Delegates.InvokedAppend | Mundi/Delegates.h:37-45 | a broadcast after appending an entry calls the old handlers, then the new one if it is non-empty |
| Delegates.WithoutMeaning | Mundi/Delegates.h:47-55 | removal keeps exactly the entries whose handle differs, and never grows the list |
| Delegates.WithoutUnknown | Mundi/Delegates.h:47-55 | removing a handle that no entry carries changes nothing |
| Delegates.WithoutDropsAtMostOne | Mundi/Delegates.h:47-55 | since handles are distinct, a removal drops at most one entry |
| Delegates.WithoutKeepsOrder | Mundi/Delegates.h:47-55 | removal keeps the handles increasing and below the next handle |
| Delegates.FreshHandleIsNew | Mundi/Delegates.h:18-23 | the next handle is carried by no existing entry |
| Delegates.BroadcastAfterAdd | Mundi/Delegates.h:18-45 | after `Add`, a broadcast makes the old calls and then calls the new handler |
| Delegates.RemoveUndoesAdd | Mundi/Delegates.h:18-55 | removing the handle `Add` returned restores the handler list |
| InputManager.SetSlot | Mundi/Source/Runtime/InputCore/InputManager.cpp:409-423 | setting one slot changes that slot only, and only when the index is in range |
| InputManager.ButtonOf | Mundi/Source/Runtime/InputCore/InputManager.cpp:192-268 | a mouse button message names a button within the button table |
| InputManager.KeyGating | Mundi/Source/Runtime/InputCore/InputManager.cpp:286-320 | key-down is recorded only while the UI neither hovers nor captures the keyboard; key-up is recorded unless the UI captures the keyboard |
| InputManager.KeysAfterChangesOneSlot | Mundi/Source/Runtime/InputCore/InputManager.cpp:118-328 | one message changes at most one key slot and keeps the table's size |
| InputManager.UInputManager.constructor | Mundi/Source/Runtime/InputCore/InputManager.cpp:12-24 | every key, mouse button and gamepad starts released or disconnected, and the wheel delta is 0 |
| InputManager.UInputManager.IsKeyDown | Mundi/Source/Runtime/InputCore/InputManager.cpp:362-366 | a key is down only when its code is in range |
| InputManager.UInputManager.IsKeyReleased | Mundi/Source/Runtime/InputCore/InputManager.cpp:374-378 | a key is released only when its code is in range and it is no longer down |
| InputManager.UInputManager.IsKeyPressed | Mundi/Source/Runtime/InputCore/InputManager.cpp:368-372 | a key pressed this frame is down and not released |
| InputManager.UInputManager.IsMouseButtonDown | Mundi/Source/Runtime/InputCore/InputManager.cpp:330-334 | a button is down only when it is in range |
| InputManager.UInputManager.IsMouseButtonReleased | Mundi/Source/Runtime/InputCore/InputManager.cpp:356-360 | a button is released only when it is in range and no longer down |
| InputManager.UInputManager.IsMouseButtonPressed | Mundi/Source/Runtime/InputCore/InputManager.cpp:336-354 | a button pressed this frame is down and not released |
| InputManager.UInputManager.IsGamepadConnected | Mundi/Source/Runtime/InputCore/InputManager.cpp:575-579 | a gamepad is connected only when its index is in range |
| InputManager.UInputManager.IsGamepadButtonDown | Mundi/Source/Runtime/InputCore/InputManager.cpp:581-585 | a gamepad button is down only on a connected gamepad and for a nonzero button mask |
| InputManager.UInputManager.IsGamepadButtonReleased | Mundi/Source/Runtime/InputCore/InputManager.cpp:596-603 | a gamepad button is released only on a connected gamepad and when it is no longer down |
| InputManager.UInputManager.IsGamepadButtonPressed | Mundi/Source/Runtime/InputCore/InputManager.cpp:587-594 | a gamepad button pressed this frame is down and not released |
| InputManager.UInputManager.UpdateKeyState | Mundi/Source/Runtime/InputCore/InputManager.cpp:417-423 | the key table changes only at an in-range code |
| InputManager.UInputManager.UpdateMouseButton | Mundi/Source/Runtime/InputCore/InputManager.cpp:409-415 | the button table changes only at an in-range button |
| InputManager.UInputManager.ResetAllKeyStates | Mundi/Source/Runtime/InputCore/InputManager.cpp:380-387 | every key is released, and a key reads as released this frame exactly when it was down in the previous frame |
| InputManager.UInputManager.ProcessMessage | Mundi/Source/Runtime/InputCore/InputManager.cpp:118-328 | each window message updates the key table, the button table and the wheel delta by its gating rule, and nothing else |
| InputManager.UInputManager.Update | Mundi/Source/Runtime/InputCore/InputManager.cpp:68-116 | the previous-frame tables become copies of the current ones, the wheel delta is cleared and the gamepads are polled, so nothing reads as pressed or released until the next message |
| InputManager.UInputManager.UpdateGamepadStates | Mundi/Source/Runtime/InputCore/InputManager.cpp:425-470 | the previous gamepad table takes the current one, and each gamepad reads connected with its polled buttons or disconnected with none |
| ParticleEmitter.Identity | Mundi/Source/Runtime/Engine/Particles/ParticleEmitterInstance.cpp:64-102 | the fresh index table of a resized buffer lists every slot exactly once |
| ParticleEmitter.StoredIndices | Mundi/Source/Runtime/Engine/Particles/ParticleEmitterInstance.cpp:94-98 | the index table as stored in 16-bit entries: every entry is below 2^16 |
| ParticleEmitter.StoredIndicesWrap | Mundi/Source/Runtime/Engine/Particles/ParticleEmitterInstance.cpp:94-98 | up to 2^16 slots the stored table is the identity; past that (the spawn loop's tenth doubling of 100 slots gives 102400) slot 0 is stored twice and the table is no permutation |
| ParticleEmitter.SwapKeepsPermutation | Mundi/Source/Runtime/Engine/Particles/ParticleEmitterInstance.cpp:242-258 | swapping two entries of the index table keeps it a permutation of the slots |
| ParticleEmitter.SpawnWithoutGrowth | Mundi/Source/Runtime/Engine/Particles/ParticleEmitterInstance.cpp:130-172 | when the spawned particles fit, each one adds one to the live count and the capacity stays |
| ParticleEmitter.SpawnStaysInBuffer | Mundi/Source/Runtime/Engine/Particles/ParticleEmitterInstance.cpp:130-172 | after spawning, the live count never exceeds the capacity, and the capacity never shrinks |
| ParticleEmitter.CounterAfter | Mundi/Source/Runtime/Engine/Particles/ParticleEmitterInstance.cpp:169 | the particle counter is a 32-bit count that wraps around |
| ParticleEmitter.FParticleEmitterInstance.constructor | Mundi/Source/Runtime/Engine/Particles/ParticleEmitterInstance.cpp:6-23 | a new instance has no LOD level, no buffer and zero counts |
| ParticleEmitter.FParticleEmitterInstance.Init | Mundi/Source/Runtime/Engine/Particles/ParticleEmitterInstance.cpp:41-62 | without a template the LOD level, stride, buffer, live count and block size stay as they were; with one, the LOD level is the template's level 0; without that level the stride, buffer, live count and block size stay; with it the stride is the particle size and the buffer holds 100 particles, freshly allocated (identity table, no live particle, block of 100 slots and 100 indices) unless it already held 100, in which case the live count, table and block stay |
| ParticleEmitter.FParticleEmitterInstance.Resize | Mundi/Source/Runtime/Engine/Particles/ParticleEmitterInstance.cpp:64-102 | the same size changes nothing; a new size reallocates the block (data and one 16-bit index per slot), resets the index table to the identity and the live count to 0 |
| ParticleEmitter.FParticleEmitterInstance.KillParticle | Mundi/Source/Runtime/Engine/Particles/ParticleEmitterInstance.cpp:242-258 | an in-range kill swaps the killed index with the last live one and drops the live count by one; an out-of-range index changes nothing; the table stays a permutation |
| ParticleEmitter.FParticleEmitterInstance.KillAllParticles | Mundi/Source/Runtime/Engine/Particles/ParticleEmitterInstance.cpp:260-263 | the live count becomes 0 and nothing else changes |
| ParticleEmitter.FParticleEmitterInstance.GetParticleAtIndex | Mundi/Source/Runtime/Engine/Particles/ParticleEmitterInstance.cpp:265-275 | null exactly for an index outside the live range; otherwise the slot the index table names, inside the buffer |
| ParticleEmitter.FParticleEmitterInstance.SpawnParticles | Mundi/Source/Runtime/Engine/Particles/ParticleEmitterInstance.cpp:130-172 | without a LOD level nothing changes and nothing is written; otherwise the counts follow the spawn loop, growing a full buffer by doubling, the counter advances by the spawn count, and one raw slot per spawn is written: the live count before that spawn, inside the buffer, the last one being the last live position |
| ParticleEmitter.FParticleEmitterInstance.SpawnOne | Mundi/Source/Runtime/Engine/Particles/ParticleEmitterInstance.cpp:139-169 | one spawn step: a full buffer is doubled, then the live count and counter advance; the new particle is written into raw slot `ActiveParticles` before the increment (the old live count when the buffer had room), not into the slot the index table names there |
| ParticleEmitter.FParticleEmitterInstance.Grow | Mundi/Source/Runtime/Engine/Particles/ParticleEmitterInstance.cpp:139-144 | the capacity doubles and the existing index table is kept as a prefix, so live particles survive |
| ParticleEmitter.FParticleEmitterInstance.SpawnParticlesKeepingLive | Mundi/Source/Runtime/Engine/Particles/ParticleEmitterInstance.cpp:130-172 | the spawn loop with growth that keeps live particles: the live count grows by exactly the spawn count, the live indices are unchanged, and the written slots are exactly those the new live positions name, none of which held a live particle |
| ParticleEmitter.FParticleEmitterInstance.SpawnOneKeepingLive | Mundi/Source/Runtime/Engine/Particles/ParticleEmitterInstance.cpp:139-169 | one spawn step that keeps the live particles and adds one, written into the slot its new live position names, which is no live particle's slot |
| ParticleEmitter.FParticleEmitterInstance.UpdateParticles | Mundi/Source/Runtime/Engine/Particles/ParticleEmitterInstance.cpp:198-240 | after the update the live slots are exactly the slots of the particles that had not expired |
| ParticleEmitter.FParticleEmitterInstance.UpdateParticleAt | Mundi/Source/Runtime/Engine/Particles/ParticleEmitterInstance.cpp:198-240 | one step of the update loop keeps the slot if the particle lives and kills it otherwise, without touching earlier entries |
| ParticleEmitter.FParticleEmitterInstance.GetDynamicData | Mundi/Source/Runtime/Engine/Particles/ParticleEmitterInstance.cpp:277-323 | null exactly when nothing is live; otherwise a copy of the live indices with data of live-count times stride bytes |
| ParticleEmitter.FParticleEmitterInstance.GetDynamicDataAllSlots | Mundi/Source/Runtime/Engine/Particles/ParticleEmitterInstance.cpp:277-323 | the snapshot that copies every slot's data, so every copied index points inside the copied data |
| ParticleEmitter.GrownIsPermutation | Mundi/Source/Runtime/Engine/Particles/ParticleEmitterInstance.cpp:139-144 | the index table of a doubled buffer is still a permutation of its slots |
| ParticleEmitter.SurvivorsStep | Mundi/Source/Runtime/Engine/Particles/ParticleEmitterInstance.cpp:198-240 | the survivors of a list are those of its tail plus the head when it has not expired |
| ParticleEmitter.KillKeepsSurvivors | Mundi/Source/Runtime/Engine/Particles/ParticleEmitterInstance.cpp:242-258 | a kill during the update keeps the slots still to be visited and the ones already visited |
| ParticleEmitter.SlotFitsInData | Mundi/Source/Runtime/Engine/Particles/ParticleEmitterInstance.cpp:277-323 | the data of any slot below the capacity lies within capacity times stride bytes |
| ParticleEmitter.SpawnWhenFullDropsLive | Mundi/Source/Runtime/Engine/Particles/ParticleEmitterInstance.cpp:139-148 | spawning into a full buffer leaves one live particle instead of one more than before |
| ParticleEmitter.KillThenSpawnOverwrites | Mundi/Source/Runtime/Engine/Particles/ParticleEmitterInstance.cpp:145-151 | after spawning two particles and killing the first, the only live particle is in slot 1, the next spawn writes raw slot 1 over it, and the new live position names slot 0, the killed particle's |
| ParticleEmitter.KillThenSnapshot | Mundi/Source/Runtime/Engine/Particles/ParticleEmitterInstance.cpp:242-323 | after a kill the live index can name slot 1 while only one slot's data is copied, so the snapshot reads past its data |
| ParticleEventReceiver.UParticleModuleEventReceiverSpawn.constructor | Mundi/Source/Runtime/Engine/Particles/Modules/ParticleModuleEventReceiverSpawn.h:20-36 | a spawn receiver listens for death events and spawns one particle by default |
| ParticleEventReceiver.UParticleModuleEventReceiverSpawn.SpawnParticlesAtLocation | Mundi/Source/Runtime/Engine/Particles/Modules/ParticleModuleEventReceiver.cpp:75-86 | a positive spawn count spawns that many particles into the owner; otherwise, or with no owner, nothing changes |
| ParticleEventReceiver.UParticleModuleEventReceiverSpawn.HandleEvent | Mundi/Source/Runtime/Engine/Particles/Modules/ParticleModuleEventReceiver.cpp:32-50 | an event the receiver accepts spawns its count of particles; any other event leaves the owner unchanged |
| ParticleEventReceiver.UParticleModuleEventReceiverSpawn.HandleCollisionEvent | Mundi/Source/Runtime/Engine/Particles/Modules/ParticleModuleEventReceiver.cpp:52-73 | a collision spawns the count when the receiver accepts collisions, and changes nothing otherwise |
| ParticleEventReceiver.ParticlesToKill | Mundi/Source/Runtime/Engine/Particles/Modules/ParticleModuleEventReceiver.cpp:135 | a kill count of 0 means every live particle; otherwise the smaller of the count and the live number |
| ParticleEventReceiver.Descending | Mundi/Source/Runtime/Engine/Particles/Modules/ParticleModuleEventReceiver.cpp:166-169 | the chosen indices in strictly decreasing order, each one listed |
| ParticleEventReceiver.Chosen | Mundi/Source/Runtime/Engine/Particles/Modules/ParticleModuleEventReceiver.cpp:161-164 | the set of the first `n` indices in distance order |
| ParticleEventReceiver.UParticleModuleEventReceiverKill.constructor | Mundi/Source/Runtime/Engine/Particles/Modules/ParticleModuleEventReceiver.cpp:112-126 | a kill receiver keeps the event type, kill count and nearest-first flag it is given |
| ParticleEventReceiver.UParticleModuleEventReceiverKill.HandleEvent | Mundi/Source/Runtime/Engine/Particles/Modules/ParticleModuleEventReceiver.cpp:112-126 | an accepted event kills the receiver's number of particles; any other event changes nothing |
| ParticleEventReceiver.UParticleModuleEventReceiverKill.KillsFor | Mundi/Source/Runtime/Engine/Particles/Modules/ParticleModuleEventReceiver.cpp:135 | the number of particles a kill removes is between 0 and the live count: all for a count of 0, the smaller of count and live count for a positive one, none for a negative one |
| ParticleEventReceiver.UParticleModuleEventReceiverKill.KillParticles | Mundi/Source/Runtime/Engine/Particles/Modules/ParticleModuleEventReceiver.cpp:128-185 | the live count drops by the kill number; nearest-first removes exactly the particles chosen by distance, otherwise the first ones go, and every other live slot stays live |
| ParticleEventReceiver.ChosenCount | Mundi/Source/Runtime/Engine/Particles/Modules/ParticleModuleEventReceiver.cpp:161-164 | the `n` nearest are `n` distinct particles |
| ParticleEventReceiver.KillFront | Mundi/Source/Runtime/Engine/Particles/Modules/ParticleModuleEventReceiver.cpp:178-184 | killing the first `n` from the back leaves exactly the other live slots |
| ParticleEventReceiver.KillDescending | Mundi/Source/Runtime/Engine/Particles/Modules/ParticleModuleEventReceiver.cpp:166-175 | killing the chosen indices from the largest down leaves exactly the unchosen live slots, since no kill moves an index still to be killed |
| ParticleEventReceiver.KillRemovesSlot | Mundi/Source/Runtime/Engine/Particles/Modules/ParticleModuleEventReceiver.cpp:172-175 | one kill removes exactly the killed particle's slot from the live slots |
| ParticleEventReceiver.LiveExceptFront | Mundi/Source/Runtime/Engine/Particles/Modules/ParticleModuleEventReceiver.cpp:178-184 | the live slots other than the first `n` are those from position `n` on |
| ParticleLODLevel.UParticleModule.constructor | Mundi/Source/Runtime/Engine/Particles/Modules/ParticleModule.h:10-17 | a module keeps the enabled, spawn and update flags it is built with |
| ParticleLODLevel.FirstSpawnRate | Mundi/Source/Runtime/Engine/Particles/ParticleLODLevel.cpp:134-141 | the position of the first module that casts to the spawn-rate module, or the list's length when none does |
| ParticleLODLevel.SpawnListAppend | Mundi/Source/Runtime/Engine/Particles/ParticleLODLevel.cpp:42-71 | appending a module adds it to the spawn cache exactly when it is non-null, enabled and a spawn module |
| ParticleLODLevel.UpdateListAppend | Mundi/Source/Runtime/Engine/Particles/ParticleLODLevel.cpp:42-71 | appending a module adds it to the update cache exactly when it is non-null, enabled and an update module |
| ParticleLODLevel.SpawnListMembers | Mundi/Source/Runtime/Engine/Particles/ParticleLODLevel.cpp:42-71 | the spawn cache holds exactly the enabled spawn modules of the list |
| ParticleLODLevel.UpdateListMembers | Mundi/Source/Runtime/Engine/Particles/ParticleLODLevel.cpp:42-71 | the update cache holds exactly the enabled update modules of the list |
| ParticleLODLevel.SpawnListShorter | Mundi/Source/Runtime/Engine/Particles/ParticleLODLevel.cpp:42-71 | the spawn cache is no longer than the non-null modules, which are no more than the modules |
| ParticleLODLevel.BothCaches | Mundi/Source/Runtime/Engine/Particles/ParticleLODLevel.cpp:55-68 | a module that is enabled and both a spawn and an update module lands in both caches |
| ParticleLODLevel.UParticleLODLevel.constructor | Mundi/Source/Runtime/Engine/Particles/ParticleLODLevel.h:21-43 | a new LOD level has no modules, empty caches, no required module and no spawn module |
| ParticleLODLevel.UParticleLODLevel.CacheModuleInfo | Mundi/Source/Runtime/Engine/Particles/ParticleLODLevel.cpp:42-71 | the required module exists afterwards, the module list is unchanged, and the caches are rebuilt from it in order |
| ParticleLODLevel.UParticleLODLevel.FindSpawnModule | Mundi/Source/Runtime/Engine/Particles/ParticleLODLevel.cpp:134-141 | the spawn module is the first spawn-rate module of the list, or null when there is none |
| ParticleLODLevel.UParticleLODLevel.Load | Mundi/Source/Runtime/Engine/Particles/ParticleLODLevel.cpp:73-146 | loading keeps the non-null stored modules in order (or the old list when none are stored), finds the spawn module among them and rebuilds the caches |
| ParticleLODLevel.UParticleLODLevel.DuplicateSubObjects | Mundi/Source/Runtime/Engine/Particles/ParticleLODLevel.cpp:185-228 | the duplicate holds a fresh copy of each non-null module, in order, with its spawn module and caches found again among the copies |
| ParticleLODLevel.NonNullKeepsCaches | Mundi/Source/Runtime/Engine/Particles/ParticleLODLevel.cpp:185-228 | dropping null modules does not change either cache |
| ParticleDefinitions.BlockSizeFor | Mundi/Source/Runtime/Engine/Particles/ParticleDefinitions.cpp:16 | the block holds the data bytes followed by two bytes per index |
| ParticleDefinitions.FParticleDataContainer.constructor | Mundi/Source/Runtime/Engine/Particles/ParticleDefinitions.cpp:30-42 | a new container is empty, holding no block |
| ParticleDefinitions.FParticleDataContainer.Free | Mundi/Source/Runtime/Engine/Particles/ParticleDefinitions.cpp:30-42 | freeing releases the block and zeroes every size |
| ParticleDefinitions.FParticleDataContainer.Alloc | Mundi/Source/Runtime/Engine/Particles/ParticleDefinitions.cpp:6-27 | the sizes are recorded; a positive block size allocates a zero-filled block with the indices placed after the data, and otherwise there is no block |
| Bounds.Center | TL2/AABoundingBoxComponent.h:23-26 | the centre is equally far from the minimum and the maximum on each axis |
| Bounds.Extent | TL2/AABoundingBoxComponent.h:29-33 | twice the extent is the box's size on each axis |
| Bounds.CenterAndExtent | TL2/AABoundingBoxComponent.h:23-33 | the centre is the minimum plus the extent and the maximum minus it |
| Bounds.ContainsReflexive | TL2/AABoundingBoxComponent.h:35-41 | every box contains itself |
| Bounds.ContainsTransitive | TL2/AABoundingBoxComponent.h:35-41 | containment is transitive |
| Bounds.IntersectsSymmetric | TL2/AABoundingBoxComponent.h:43-49 | overlap is symmetric |
| Bounds.ContainsImpliesIntersects | TL2/AABoundingBoxComponent.h:35-49 | a box contains only well-formed boxes it also overlaps |
| Bounds.InvertedContainedButDisjoint | TL2/AABoundingBoxComponent.h:35-49 | an inverted box (minimum above maximum) can pass the containment test without overlapping |
| Bounds.CreateOctant | TL2/AABoundingBoxComponent.h:51-98 | bit 0, 1 and 2 of the index pick the upper half on X, Y and Z; a clear bit picks the lower half |
| Bounds.OctantInsideParent | TL2/AABoundingBoxComponent.h:51-98 | every octant of a well-formed box is well formed and inside it |
| Bounds.OctantCorners | TL2/AABoundingBoxComponent.h:51-98 | octant 0 shares the box's minimum corner and octant 7 its maximum corner |
| Octree.NewNode | TL2/Octree.cpp:4-12 | a new node keeps its bounds, depth and limits and has no actors, no children and no cached bounds |
| Octree.OctantIndex | TL2/Octree.cpp:252-263 | bits 0, 1 and 2 of the chosen octant say whether the box's centre is at or above the node's centre on X, Y and Z |
| Octree.CanFitInOctant | TL2/Octree.cpp:265-269 | an actor fits an octant only when the node has children and that child contains the box |
| Octree.FirstOther | TL2/Octree.cpp:122-129 | the first octant from `i` other than the skipped one that contains the box, or none when no such octant does |
| Octree.Target | TL2/Octree.cpp:114-130 | the child an insert descends into contains the box; it is the optimal octant whenever that one contains the box, and none exists only when no octant does |
| Octree.Split | TL2/Octree.cpp:271-282 | a split gives the node eight empty children, child `i` covering octant `i` one level deeper, and changes nothing else |
| Octree.Insert | TL2/Octree.cpp:109-183 | inserting keeps the node's bounds, depth and limits and keeps the tree well formed |
| Octree.MoveOne | TL2/Octree.cpp:152-180 | one redistribution step moves the actor into the first child that contains it, or leaves the node as it was |
| Octree.Redistribute | TL2/Octree.cpp:145-182 | the redistribution loop keeps the node well formed, with eight children, and never lengthens the actor list |
| Octree.EraseFirst | TL2/Octree.cpp:189-219 | erasing removes one occurrence of the actor from the list |
| Octree.Remove | TL2/Octree.cpp:189-219 | a failed removal leaves the tree unchanged; a removal keeps the node's bounds and limits |
| Octree.RemoveCached | TL2/Octree.cpp:227-235 | removing an actor without a cached bound changes nothing |
| Octree.Update | TL2/Octree.cpp:221-225 | an update, a removal by the old bound followed by an insert by the new one, keeps the tree well formed |
| Octree.UpdateCached | TL2/Octree.cpp:237-248 | an update by the cached bound keeps the tree well formed |
| Octree.Clear | TL2/Octree.cpp:27-41 | after a clear the tree is one node with no actors, the same bounds and the bound cache kept |
| Octree.TotalNodeCount | TL2/Octree.cpp:284-296 | a tree counts at least its root |
| Octree.TotalActorCount | TL2/Octree.cpp:298-309 | a tree counts at least the actors stored at its root |
| Octree.MaxOccupiedDepth | TL2/Octree.cpp:311-326 | the deepest occupied level is at least the root's depth |
| Octree.TotalActorCountIsSize | TL2/Octree.cpp:298-309 | the count is the number of actors stored anywhere in the tree |
| Octree.InsertAddsOne | TL2/Octree.cpp:109-183 | an insert adds exactly the actor to the tree's actors, however it is redistributed |
| Octree.MoveOneMoves | TL2/Octree.cpp:152-180 | a moved actor lands in exactly one child, and children gain nothing else |
| Octree.RedistributeMoves | TL2/Octree.cpp:145-182 | redistribution neither loses nor duplicates an actor: the children gain exactly what leaves the node's list |
| Octree.RemoveTakesOne | TL2/Octree.cpp:189-219 | a successful removal takes exactly one copy of the actor out of the tree |
| Octree.InsertCountsOne | TL2/Octree.cpp:109-183 | an insert raises the actor count by one (with lines 298-309 of the same file) |
| Octree.RemoveCountsOne | TL2/Octree.cpp:189-219 | a successful removal lowers the actor count by one (with lines 298-309 of the same file) |
| Octree.UpdateKeepsActors | TL2/Octree.cpp:221-225 | an update that finds the actor keeps the tree's actors the same |
| Octree.DepthBound | TL2/Octree.cpp:311-326 | no actor sits below the maximum depth, since only nodes above it split (with lines 271-282 of the same file) |
| WorldPartition.Mark | TL2/WorldPartitionManager.cpp:23-31 | an indexable actor joins the dirty set, and is queued only when it was not already in it; a null or non-indexable actor changes nothing |
| WorldPartition.Forget | TL2/WorldPartitionManager.cpp:69-86 | unregistering removes only the actor itself from the dirty set, and only when it is indexable and has a root component |
| WorldPartition.Drain | TL2/WorldPartitionManager.cpp:99-125 | the update loop never lengthens the queue |
| WorldPartition.DrainFacts | TL2/WorldPartitionManager.cpp:99-125 | the loop processes at most the budget, stops early only when the queue is empty, pops a prefix of the queue, processes each dirty actor at most once, and leaves dirty exactly the actors it did not process |
| WorldPartition.UpdateOne | TL2/WorldPartitionManager.cpp:113-119 | the tree is updated for an actor in a world that has one, and left alone otherwise |
| WorldPartition.UpdateAll | TL2/WorldPartitionManager.cpp:99-125 | the tree after updating every processed actor in turn stays well formed and present exactly when it was |
| WorldPartition.MarkKeepsCovered | TL2/WorldPartitionManager.cpp:88-97 | after marking, every dirty actor is still waiting in the queue (with lines 23-31 of the same file) |
| WorldPartition.MarkIdempotent | TL2/WorldPartitionManager.cpp:88-97 | marking the same actor twice queues it once |
| WorldPartition.ForgetKeepsCovered | TL2/WorldPartitionManager.cpp:69-86 | unregistering keeps every remaining dirty actor queued |
| WorldPartition.DrainKeepsCovered | TL2/WorldPartitionManager.cpp:99-125 | after an update every actor still dirty is still queued, so none is lost |
| WorldPartition.DrainStep | TL2/WorldPartitionManager.cpp:102-124 | one loop iteration pops the front actor and processes it exactly when it was dirty |
| WorldPartition.UnregisteredNotProcessed | TL2/WorldPartitionManager.cpp:69-125 | an actor unregistered before an update is not processed by it, though its stale queue entry remains |
| WorldPartition.UWorldPartitionManager.constructor | TL2/WorldPartitionManager.cpp:19-21 | a new manager has an empty queue and dirty set |
| WorldPartition.UWorldPartitionManager.Clear | TL2/WorldPartitionManager.cpp:19-21 | clearing changes nothing |
| WorldPartition.UWorldPartitionManager.Register | TL2/WorldPartitionManager.cpp:23-31 | registering marks the actor dirty as `Mark` says |
| WorldPartition.UWorldPartitionManager.MarkDirty | TL2/WorldPartitionManager.cpp:88-97 | marking follows `Mark`, the same rule as registering |
| WorldPartition.UWorldPartitionManager.Unregister | TL2/WorldPartitionManager.cpp:69-86 | the actor is removed from a present tree by its cached bound when it is indexable and in a world, and dropped from the dirty set as `Forget` says; the queue is unchanged |
| WorldPartition.UWorldPartitionManager.PopFront | TL2/WorldPartitionManager.cpp:102-122 | the front actor leaves the queue and the dirty set; it is counted and its tree entry updated only when it was dirty |
| WorldPartition.UWorldPartitionManager.Update | TL2/WorldPartitionManager.cpp:99-125 | the queue, dirty set and tree become those of `Drain` with the budget, the tree updated for each processed actor in order |
| Enums.Complement | TL2/Enums.h:385-389 | `~` sets exactly the bits the flags do not have |
| Enums.Enable | TL2/Enums.h:390-395 | `\|=` sets the given bits and leaves every other bit as it was |
| Enums.Disable | TL2/Enums.h:396-400 | `&= ~flag` clears the given bits and leaves every other bit as it was |
| Enums.EnableThenHas | TL2/Enums.h:390-406 | after a flag is enabled, `HasShowFlag` reports it |
| Enums.DisableThenHasNot | TL2/Enums.h:396-406 | after a flag is disabled, `HasShowFlag` no longer reports it |
| Enums.NothingHasNone | TL2/Enums.h:403-406 | `HasShowFlag` of no flag is false for any flags |
| Enums.DefaultEnabledFlags | TL2/Enums.h:346-361 | the default flags are primitives, static meshes and the grid, and none of the others |
| Enums.AllHasEvery | TL2/Enums.h:403-406 | `SF_All` has every flag (with line 364 of the same file) |
| Enums.DefaultMaterialInfo | TL2/Enums.h:9-37 | a default material uses illumination model 2, white colours, -1 for the unspecified scalars and empty names |
| Enums.LoadStrings | TL2/Enums.h:82-93 | reading `n` strings yields `n` of them |
| Enums.LoadEach | TL2/Enums.h:89-93 | reading `n` items yields exactly `n` of them (with lines 151-155 of the same file) |
| Enums.VecRoundTrip | TL2/Enums.h:119 | a vector written as three floats reads back unchanged, leaving the rest of the stream |
| Enums.Vec2RoundTrip | TL2/Enums.h:120 | a 2D vector reads back unchanged |
| Enums.Vec4RoundTrip | TL2/Enums.h:121 | a 4D vector reads back unchanged |
| Enums.MaterialInfoRoundTrip | TL2/Enums.h:38-70 | a material info written member by member reads back unchanged |
| Enums.GroupInfoRoundTrip | TL2/Enums.h:104-108 | a group's start index and count read back unchanged |
| Enums.VertexRoundTrip | TL2/Enums.h:130-137 | a vertex's position, normal, colour and texture coordinate read back unchanged |
| Enums.EachRoundTrip | TL2/Enums.h:82-93 | items written one after another read back as the same items when their own round trip holds (with lines 144-155 of the same file) |
| Enums.ArrayRoundTrip | TL2/Enums.h:82-93 | an array written as its count followed by its items reads back unchanged (with lines 144-155 of the same file) |
| Enums.VertexArrayRoundTrip | TL2/Enums.h:144-155 | a vertex array reads back unchanged |
| Enums.MaterialArrayRoundTrip | TL2/Enums.h:82-93 | a material array reads back unchanged |
| Enums.GroupArrayRoundTrip | TL2/Enums.h:178-194 | the group list, written as a count then each group, reads back unchanged |
| Enums.StaticMeshRoundTrip | TL2/Enums.h:171-198 | a static mesh (path, vertices, indices, groups, material flag) written and read back is the same mesh |
| Renderer.InterleaveAt | TL2/Renderer.cpp:308-312 | line `k` puts its start at vertex `2k` and its end at vertex `2k + 1` |
| Renderer.InterleaveAppend | TL2/Renderer.cpp:288-321 | adding two lists of lines in turn is the same as adding them together |
| Renderer.IndexRunAt | TL2/Renderer.cpp:296-318 | the `i`-th index added is the vertex count before the call plus `i` |
| Renderer.ExtendSelfIndexed | TL2/Renderer.cpp:269-321 | after lines are added, every index still names its own vertex position |
| Renderer.SingleLineIsAddLine | TL2/Renderer.cpp:269-321 | adding one line through `AddLines` appends what `AddLine` appends |
| Renderer.ViewModeCached | TL2/Renderer.cpp:213-225 | setting a view mode records it and issues the two state calls only when it differs from the cached mode; setting it again does nothing |
| Renderer.URenderer.constructor | TL2/Renderer.cpp:8-19 | a new renderer has no active batch, empty line data, no device calls and wireframe as the cached view mode |
| Renderer.URenderer.SetViewModeType | TL2/Renderer.cpp:213-225 | the cached mode and device calls follow `ViewModeStep`; the line batch is untouched |
| Renderer.URenderer.BeginLineBatch | TL2/Renderer.cpp:257-267 | with line data allocated, the batch becomes active and empty; otherwise nothing changes |
| Renderer.URenderer.AddLine | TL2/Renderer.cpp:269-286 | in an active batch, appends the two end points, the colour twice and the two next vertex indices; otherwise nothing changes |
| Renderer.URenderer.AddLines | TL2/Renderer.cpp:288-321 | in an active batch with lists of equal length, appends each line's end points, colours and indices in order; otherwise nothing changes |
| Renderer.URenderer.EndLineBatch | TL2/Renderer.cpp:323-370 | a non-empty active batch is clamped to `MAX_LINES` lines and drawn when the upload succeeds; the batch is inactive afterwards and no draw exceeds the mesh capacity |
| Renderer.URenderer.ClearLineBatch | TL2/Renderer.cpp:372-381 | with line data allocated, the batch becomes inactive and empty; otherwise nothing changes |
| Renderer.AppendLines | TL2/Renderer.cpp:306-319 | the copy loop appends the interleaved end points, the doubled colours and the consecutive indices |
| Renderer.ClampKeepsSelfIndexed | TL2/Renderer.cpp:336-345 | clamping the batch to its first lines keeps every index naming its own vertex |
| RenderSettings.ToggleFlips | Mundi/Source/Runtime/Renderer/RenderSettings.h:19 | a toggle clears the flag's bits when any of them is set and sets them all otherwise, leaving every other bit alone |
| RenderSettings.ToggleTwice | Mundi/Source/Runtime/Renderer/RenderSettings.h:19 | toggling a single-bit flag twice restores the flags |
| RenderSettings.PartialToggleTwice | Mundi/Source/Runtime/Renderer/RenderSettings.h:19 | toggling a two-bit flag twice from a state holding one of its bits does not restore that state |
| RenderSettings.URenderSettings.constructor | Mundi/Source/Runtime/Renderer/RenderSettings.h:7-24 | new settings show the default flags in the lit Phong view mode |
| RenderSettings.URenderSettings.SetViewModeIndex | Mundi/Source/Runtime/Renderer/RenderSettings.h:11 | sets the view mode and leaves the flags alone |
| RenderSettings.URenderSettings.GetViewModeIndex | Mundi/Source/Runtime/Renderer/RenderSettings.h:12 | returns the view mode |
| RenderSettings.URenderSettings.GetShowFlags | Mundi/Source/Runtime/Renderer/RenderSettings.h:15 | returns the flags |
| RenderSettings.URenderSettings.SetShowFlags | Mundi/Source/Runtime/Renderer/RenderSettings.h:16 | replaces the flags and leaves the view mode alone |
| RenderSettings.URenderSettings.EnableShowFlag | Mundi/Source/Runtime/Renderer/RenderSettings.h:17 | sets the flag's bits, keeping the rest |
| RenderSettings.URenderSettings.DisableShowFlag | Mundi/Source/Runtime/Renderer/RenderSettings.h:18 | clears the flag's bits, keeping the rest |
| RenderSettings.URenderSettings.ToggleShowFlag | Mundi/Source/Runtime/Renderer/RenderSettings.h:19 | flips the flag as `ToggleFlips` describes |
| RenderSettings.URenderSettings.IsShowFlagEnabled | Mundi/Source/Runtime/Renderer/RenderSettings.h:20 | true exactly when some bit of the flag is set |
| FixedWidth.Add32 | Mundi/Source/Runtime/Renderer/SkinningStats.h:197-250 | a `uint32` counter increment is the sum modulo 2^32, and it wrapped exactly when the result is below the old count |
| FixedWidth.Add64 | Mundi/Source/Runtime/Renderer/SkinningStats.h:197-234 | a `uint64` sum (sizes here, byte totals in the ragdoll statistics) is the sum modulo 2^64, and it wrapped exactly when the result is below an operand |
| SkinningStats.Reset | Mundi/Source/Runtime/Renderer/SkinningStats.h:58-80 | a reset zeroes every CPU and GPU statistic and the total count |
| SkinningStats.GetCPUAverageTimePerMeshMS | Mundi/Source/Runtime/Renderer/SkinningStats.h:103-107 | the CPU average is 0 without meshes, and otherwise times the mesh count gives the CPU total time |
| SkinningStats.GetGPUAverageTimePerMeshMS | Mundi/Source/Runtime/Renderer/SkinningStats.h:112-116 | the GPU average is 0 without meshes, and otherwise times the mesh count gives the GPU total time |
| SkinningStats.UpdateTotalCounts | Mundi/Source/Runtime/Renderer/SkinningStats.h:122-126 | the total mesh count becomes the count of the active mode, and nothing else changes |
| SkinningStats.ResetFrameParts | Mundi/Source/Runtime/Renderer/SkinningStats.h:148-177 | a frame reset zeroes the total and the chosen mode's statistics and keeps the other mode's |
| SkinningStats.ResetBothIsReset | Mundi/Source/Runtime/Renderer/SkinningStats.h:148-175 | resetting one mode then the other is a full reset (with lines 58-80 of the same file) |
| SkinningStats.AddCPUMeshCounts | Mundi/Source/Runtime/Renderer/SkinningStats.h:197-203 | adding a CPU mesh raises the CPU count by one, leaves the GPU statistics alone, and the next total count in CPU mode includes it (with lines 122-126 of the same file) |
| SkinningStats.AddGPUMeshCounts | Mundi/Source/Runtime/Renderer/SkinningStats.h:228-234 | adding a GPU mesh raises the GPU count by one and leaves the CPU statistics alone (with lines 122-126 of the same file) |
| SkinningStats.MeshCountWraps | Mundi/Source/Runtime/Renderer/SkinningStats.h:197-203 | a CPU mesh count at the `uint32` maximum wraps to 0 on the next mesh |
| SkinningStats.FSkinningStatManager.constructor | Mundi/Source/Runtime/Renderer/SkinningStats.h:276 | a new manager holds reset statistics |
| SkinningStats.FSkinningStatManager.ResetFrameStats | Mundi/Source/Runtime/Renderer/SkinningStats.h:148-177 | the statistics become the frame reset for the chosen mode |
| SkinningStats.FSkinningStatManager.GetStats | Mundi/Source/Runtime/Renderer/SkinningStats.h:182-185 | returns the current statistics |
| SkinningStats.FSkinningStatManager.AddCPUMesh | Mundi/Source/Runtime/Renderer/SkinningStats.h:197-203 | counts one CPU mesh with its vertices, bones and buffer size |
| SkinningStats.FSkinningStatManager.AddCPUBoneMatrixCalcTime | Mundi/Source/Runtime/Renderer/SkinningStats.h:205-208 | adds the time to the CPU bone matrix time only |
| SkinningStats.FSkinningStatManager.AddCPUVertexSkinningTime | Mundi/Source/Runtime/Renderer/SkinningStats.h:210-213 | adds the time to the CPU vertex skinning time only |
| SkinningStats.FSkinningStatManager.AddCPUBufferUploadTime | Mundi/Source/Runtime/Renderer/SkinningStats.h:215-219 | adds the upload time and counts one buffer update, leaving the GPU statistics alone |
| SkinningStats.FSkinningStatManager.AddCPUGPUDrawTime | Mundi/Source/Runtime/Renderer/SkinningStats.h:221-224 | adds the time to the CPU-mode draw time only |
| SkinningStats.FSkinningStatManager.AddGPUMesh | Mundi/Source/Runtime/Renderer/SkinningStats.h:228-234 | counts one GPU mesh with its vertices, bones and bone buffer size |
| SkinningStats.FSkinningStatManager.AddGPUBoneMatrixCalcTime | Mundi/Source/Runtime/Renderer/SkinningStats.h:236-239 | adds the time to the GPU bone matrix time only |
| SkinningStats.FSkinningStatManager.AddGPUBoneBufferUploadTime | Mundi/Source/Runtime/Renderer/SkinningStats.h:241-245 | adds the upload time and counts one buffer update, leaving the CPU statistics alone |
| SkinningStats.FSkinningStatManager.AddGPUDrawTime | Mundi/Source/Runtime/Renderer/SkinningStats.h:247-250 | adds the time to the GPU draw time only |
| RagdollStats.Reset | Mundi/Source/Runtime/Engine/Physics/RagdollStats.h:25-37 | a reset zeroes every count and time |
| RagdollStats.GetTotalMemoryKB | Mundi/Source/Runtime/Engine/Physics/RagdollStats.h:49-52 | the memory in kilobytes times 1024 is the memory in bytes |
| RagdollStats.ResetClearsTotals | Mundi/Source/Runtime/Engine/Physics/RagdollStats.h:25-47 | after a reset the shape total and memory total are 0 |
| RagdollStats.FRagdollStatManager.constructor | Mundi/Source/Runtime/Engine/Physics/RagdollStats.h:118 | a new manager holds reset statistics |
| RagdollStats.FRagdollStatManager.ResetFrameStats | Mundi/Source/Runtime/Engine/Physics/RagdollStats.h:68-71 | the statistics are reset |
| RagdollStats.FRagdollStatManager.UpdateStats | Mundi/Source/Runtime/Engine/Physics/RagdollStats.h:74-77 | the statistics are replaced by the given ones |
| RagdollStats.FRagdollStatManager.GetStats | Mundi/Source/Runtime/Engine/Physics/RagdollStats.h:80-83 | returns the current statistics |
| RagdollStats.FRagdollStatManager.AddRagdoll | Mundi/Source/Runtime/Engine/Physics/RagdollStats.h:88-93 | counts one ragdoll with its bodies and constraints; the shape and memory totals are unchanged |
| RagdollStats.FRagdollStatManager.AddShapeCounts | Mundi/Source/Runtime/Engine/Physics/RagdollStats.h:96-101 | adds each shape count, so the shape total grows by their sum |
| RagdollStats.FRagdollStatManager.AddSyncTime | Mundi/Source/Runtime/Engine/Physics/RagdollStats.h:104-108 | adds the time to both the sync time and the total time, leaving the other times alone |
| RagdollStats.FRagdollStatManager.AddMemory | Mundi/Source/Runtime/Engine/Physics/RagdollStats.h:111-115 | adds the byte counts with 64-bit wrap-around; without overflow the memory total grows by their sum |
| Skeleton.Chain | Mundi/Source/Runtime/Engine/Components/SkeletalMeshComponent.cpp:693-706 | the ancestors visited by the walk up the parent chain are bones of the skeleton |
| Skeleton.NearestMappedIsFirstOnChain | Mundi/Source/Runtime/Engine/Components/SkeletalMeshComponent.cpp:693-706 | the walk answers -1 exactly when no ancestor on the chain has a body; otherwise the body of the first ancestor on the chain that has one |
| Skeleton.LastIndexMapIsLast | Mundi/Source/Runtime/Engine/Components/SkeletalMeshComponent.cpp:674-681 | a name is in the lookup exactly when some entry carries it, and maps to its last such entry, since a later `Add` overwrites an earlier one |
| Skeleton.MappedParentIsNearestAncestor | Mundi/Source/Runtime/Engine/Physics/RagdollSystem.cpp:392-424 | a bone's mapped parent is the nearest proper ancestor that has a body, or -1 when none does |
| Skeleton.BuildLastIndexMap | Mundi/Source/Runtime/Engine/Components/SkeletalMeshComponent.cpp:674-681 | the lookup loop builds the map of each name to its last entry |
| Skeleton.FindMappedAncestor | Mundi/Source/Runtime/Engine/Components/SkeletalMeshComponent.cpp:693-706 | the `while` loop up the parent chain finds the nearest mapped ancestor |
| SkeletalMeshComponent.GetWorldTransform | Mundi/Source/Runtime/Engine/Components/SkeletalMeshComponent.cpp:367-375 | a bone's world transform is its component-space transform composed under the component's transform |
| SkeletalMeshComponent.ComponentSpaceComposesChain | Mundi/Source/Runtime/Engine/Components/SkeletalMeshComponent.cpp:390-410 | a bone's component-space transform is the composition of the local transforms along its chain from the root |
| SkeletalMeshComponent.USkeletalMeshComponent.constructor | Mundi/Source/Runtime/Engine/Components/SkeletalMeshComponent.cpp:22-33 | a new component holds the given mesh, no physics asset, no bodies or constraints, and does not simulate |
| SkeletalMeshComponent.USkeletalMeshComponent.UpdateComponentSpaceTransforms | Mundi/Source/Runtime/Engine/Components/SkeletalMeshComponent.cpp:390-410 | every bone's component-space transform becomes the composition along its parent chain; slots past the skeleton are untouched |
| SkeletalMeshComponent.USkeletalMeshComponent.SetupBoneHierarchy | Mundi/Source/Runtime/Engine/Components/SkeletalMeshComponent.cpp:659-708 | without a skeleton or physics asset each body's parent is the previous body; otherwise it is the body of the nearest ancestor bone that has one, or -1 |
| SkeletalMeshComponent.USkeletalMeshComponent.FindBodyIndex | Mundi/Source/Runtime/Engine/Components/SkeletalMeshComponent.cpp:849-861 | -1 without a physics asset or when no body setup has the bone name; otherwise the first setup that has it |
| SkeletalMeshComponent.USkeletalMeshComponent.GetEffectivePhysicsAssetPath | Mundi/Source/Runtime/Engine/Components/SkeletalMeshComponent.cpp:867-882 | the override path when one is set, else the mesh's own path, else the empty path |
| SkeletalMeshComponent.USkeletalMeshComponent.SetSimulatePhysics | Mundi/Source/Runtime/Engine/Components/SkeletalMeshComponent.cpp:587-618 | enabling is refused when there are no bodies; otherwise the flag takes the requested value; simulation is only ever on with bodies or if it already was |
| SkeletalMeshComponent.USkeletalMeshComponent.DestroyPhysicsState | Mundi/Source/Runtime/Engine/Components/SkeletalMeshComponent.cpp:559-585 | every constraint, body and index table is dropped and the physics asset cleared, while the mesh and pose are kept |
| RagdollSystem.GetBoneName | Mundi/Source/Runtime/Engine/Physics/RagdollSystem.cpp:19-22 | the bone's name is its body setup's bone name, or the empty name without a setup |
| RagdollSystem.BodyCommandsReachBodies | Mundi/Source/Runtime/Engine/Physics/RagdollSystem.cpp:30-56 | the wake or sleep loop sends exactly one command, of the requested kind, to every bone that has a body and to no other |
| RagdollSystem.FRagdollInstance.constructor | Mundi/Source/Runtime/Engine/Physics/RagdollSystem.h:15-19 | a new instance keeps its bones and skeleton and starts inactive |
| RagdollSystem.FRagdollInstance.Activate | Mundi/Source/Runtime/Engine/Physics/RagdollSystem.cpp:30-42 | an inactive instance wakes every body and becomes active; an active one changes nothing |
| RagdollSystem.FRagdollInstance.Deactivate | Mundi/Source/Runtime/Engine/Physics/RagdollSystem.cpp:44-56 | an active instance puts every body to sleep and becomes inactive; an inactive one changes nothing |
| RagdollSystem.FRagdollInstance.SendToBodies | Mundi/Source/Runtime/Engine/Physics/RagdollSystem.cpp:34-40 | the loop over the bones sends one command to each body in bone order |
| RagdollSystem.RagdollNames | Mundi/Source/Runtime/Engine/Physics/RagdollSystem.cpp:369-374 | the name lookup is built from each bone's name, in bone order |
| RagdollSystem.RagdollRootsHaveNoParent | Mundi/Source/Runtime/Engine/Physics/RagdollSystem.cpp:392-397 | a bone that is a root in the skeleton has no ragdoll parent |
| RagdollSystem.LinearParents | Mundi/Source/Runtime/Engine/Physics/RagdollSystem.cpp:339-347 | without a skeleton each bone after the first takes the previous bone as parent; the first keeps its parent and nothing else changes |
| RagdollSystem.SkeletonParents | Mundi/Source/Runtime/Engine/Physics/RagdollSystem.cpp:369-425 | with a skeleton each bone's parent is the ragdoll bone of its nearest skeleton ancestor that is in the ragdoll, or -1; nothing else changes |
| Sequences.RemoveAllCounts | Mundi/Source/Runtime/Engine/Physics/RagdollSystem.cpp:458 | `TArray::Remove` drops every copy of the item and keeps every other item |
| RagdollSystem.ActiveOfIsActiveMembers | Mundi/Source/Runtime/Engine/Physics/RagdollSystem.cpp:464-479 | the instances an update syncs are exactly the listed non-null active ones |
| RagdollSystem.FRagdollSystem.constructor | Mundi/Source/Runtime/Engine/Physics/RagdollSystem.h:53-67 | a new system has no ragdolls |
| RagdollSystem.FRagdollSystem.SetupBoneHierarchy | Mundi/Source/Runtime/Engine/Physics/RagdollSystem.cpp:333-426 | only parent indices change: linear without a skeleton, otherwise the nearest ancestor in the ragdoll |
| RagdollSystem.FRagdollSystem.DestroyRagdoll | Mundi/Source/Runtime/Engine/Physics/RagdollSystem.cpp:428-462 | a non-null instance leaves the list entirely and the list shrinks by its number of copies; null changes nothing |
| RagdollSystem.FRagdollSystem.Update | Mundi/Source/Runtime/Engine/Physics/RagdollSystem.cpp:464-479 | syncs the active instances in list order |
| RagdollSystem.FRagdollSystem.GetActiveRagdollCount | Mundi/Source/Runtime/Engine/Physics/RagdollSystem.h:50 | the number of listed ragdolls, active or not |
| PhysicsAsset.NewConstraint | Mundi/Source/Runtime/Engine/Physics/ConstraintInstance.h:49-117 | a default constraint joins the two named bones with every linear axis locked (limit 0), every angular axis limited to 45 degrees, and collision between the joined bodies disabled |
| SkeletalMesh.GeneratedBody | Mundi/Source/Runtime/AssetManagement/SkeletalMesh.cpp:128-148 | the body generated for a bone carries the bone's name and exactly one capsule, with no spheres, boxes or convex elements |
| SkeletalMesh.ConstrainedChildren | Mundi/Source/Runtime/AssetManagement/SkeletalMesh.cpp:155-162 | the bones that receive a constraint are indices below the bone count |
| SkeletalMesh.ConstrainedChildrenExactlyOnce | Mundi/Source/Runtime/AssetManagement/SkeletalMesh.cpp:155-162 | a bone receives a constraint if and only if its parent index lies in range (the root and out-of-range parents are skipped), and no bone receives two: the list is strictly increasing |
| SkeletalMesh.ConstraintsFollowChildren | Mundi/Source/Runtime/AssetManagement/SkeletalMesh.cpp:155-185 | the k-th constraint belongs to the k-th constrained bone, so there are exactly as many constraints as constrained bones |
| SkeletalMesh.GeneratedConstraintsOnePerChild | Mundi/Source/Runtime/AssetManagement/SkeletalMesh.cpp:155-185 | one constraint per bone with an in-range parent, in bone order; each names the parent as ConstraintBone1 and the child as ConstraintBone2, so the joint built from it takes the parent as its child, with 45-degree twist and swing limits |
| SkeletalMesh.GeneratedConstraintNamesParentFirst | Mundi/Source/Runtime/AssetManagement/SkeletalMesh.cpp:167-168 | for a root with one child arm, the single constraint names the root first, so the joint takes the root as its child and the arm as its parent |
| SkeletalMesh.UnrealOrderChildFirst | Mundi/Source/Runtime/Engine/Physics/ConstraintInstance.h:39-44 | with the documented order, the k-th constraint gives the k-th constrained bone the child role and its parent the parent role, with the same 45-degree limits |
| SkeletalMesh.USkeletalMesh.AutoGeneratePhysicsAsset | Mundi/Source/Runtime/AssetManagement/SkeletalMesh.cpp:105-189 | with no data, no bones, or an asset that already has bodies, nothing changes; otherwise the mesh gets a fresh asset holding one generated body per bone in bone order and exactly the generated constraints, and the skeleton is untouched |
| SPhysicsAssetEditorWindow.GetShapeCountByType | Mundi/Source/Slate/Windows/SPhysicsAssetEditorWindow.cpp:2396-2407 | the count of spheres, boxes or capsules on a body, and 0 for a missing body or for the None kind |
| SPhysicsAssetEditorWindow.AddShapeCounts | Mundi/Source/Slate/Windows/SPhysicsAssetEditorWindow.cpp:2762-2799 | adding a shape raises the count of the added kind by one (an unknown kind adds a capsule) and leaves every other kind's count, the bone name and the mass unchanged; a missing body stays missing |
| SPhysicsAssetEditorWindow.FirstShape | Mundi/Source/Slate/Windows/SPhysicsAssetEditorWindow.cpp:2280-2304 | the shape picked on selection is index 0 of the first non-empty kind in the order sphere, box, capsule, and none (-1) exactly when the body has no sphere, box or capsule |
| SPhysicsAssetEditorWindow.CreateDefaultConstraint | Mundi/Source/Slate/Windows/SPhysicsAssetEditorWindow.cpp:2856-2881 | the new constraint joins bone1 to bone2 with every linear axis locked, every angular axis limited to 45 degrees and collision between the two bodies disabled |
| SPhysicsAssetEditorWindow.DefaultConstraintIsConstructorDefault | Mundi/Source/Slate/Windows/SPhysicsAssetEditorWindow.cpp:2856-2881 | the editor's default constraint equals a default-constructed constraint between the same bones |
| SPhysicsAssetEditorWindow.AddedConstraintIsFound | Mundi/Source/Slate/Windows/SPhysicsAssetEditorWindow.cpp:2896-2906 | after a constraint between two bones is appended, the duplicate test finds it in both orders, so the same pair cannot be joined twice |
| SPhysicsAssetEditorWindow.KeepUnrelatedExactly | Mundi/Source/Slate/Windows/SPhysicsAssetEditorWindow.cpp:2674-2686 | removing a body's constraints drops exactly those naming its bone as either end and keeps every other constraint as many times as it occurred |
| SPhysicsAssetEditorWindow.RemoveAt | Mundi/Source/Slate/Windows/SPhysicsAssetEditorWindow.cpp:2688 | removing element i keeps the elements before i and shifts the later ones down by one |
| SPhysicsAssetEditorWindow.RemoveShapeCounts | Mundi/Source/Slate/Windows/SPhysicsAssetEditorWindow.cpp:2340-2394 | deleting a shape lowers its kind's count by one and leaves the other kinds, the convex elements and the bone name unchanged |
| SPhysicsAssetEditorWindow.WithoutExtension | Mundi/Source/Slate/Windows/SPhysicsAssetEditorWindow.cpp:1059-1062 | a file name is cut at its last dot: the result is a prefix, the removed part is a dot followed by no further dot, and a name without a dot is kept whole |
| SPhysicsAssetEditorWindow.Stem | Mundi/Source/Slate/Windows/SPhysicsAssetEditorWindow.cpp:1052-1064 | the shown name is the part after the last `/` or `\` without its extension, so it contains no path separator |
| SPhysicsAssetEditorWindow.TabDisplayNameParts | Mundi/Source/Slate/Windows/SPhysicsAssetEditorWindow.cpp:1046-1075 | the tab label is `Untitled` for an unsaved asset or the file's stem, followed by `*` exactly when there are unsaved edits, and ends with `##` and the tab's name |
| SPhysicsAssetEditorWindow.LeadingDigits | Mundi/Source/Slate/Windows/SPhysicsAssetEditorWindow.cpp:1100-1102 | the number read after the prefix covers the longest run of leading decimal digits |
| SPhysicsAssetEditorWindow.MaxTabNumber | Mundi/Source/Slate/Windows/SPhysicsAssetEditorWindow.cpp:1096-1109 | the largest tab number starts from 0 and so is never negative |
| SPhysicsAssetEditorWindow.MaxTabNumberIsMaximum | Mundi/Source/Slate/Windows/SPhysicsAssetEditorWindow.cpp:1096-1109 | the computed maximum bounds the number of every `PhysicsTab<N>` name and is either 0 or the number of one of them |
| SPhysicsAssetEditorWindow.NewTabNameCarriesNumber | Mundi/Source/Slate/Windows/SPhysicsAssetEditorWindow.cpp:1111-1112 | a new tab named `PhysicsTab<n>` reads back as number n, so the next new tab gets a larger number |
| SPhysicsAssetEditorWindow.NextTabNumber | Mundi/Source/Slate/Windows/SPhysicsAssetEditorWindow.cpp:1094-1113 | the `+` button numbers the new tab one above the largest number among the open tabs |
| SPhysicsAssetEditorWindow.PhysicsAssetEditorState.SelectBody | Mundi/Source/Slate/Windows/SPhysicsAssetEditorWindow.cpp:2271-2310 | selecting a body records it and its source, clears the constraint selection, marks the shapes for rebuild and selects FirstShape of the body (none for an out-of-range index or empty slot); the asset and dirty flag are untouched |
| SPhysicsAssetEditorWindow.PhysicsAssetEditorState.SelectConstraint | Mundi/Source/Slate/Windows/SPhysicsAssetEditorWindow.cpp:2312-2325 | selecting a constraint records it and clears the body and shape selection; nothing else changes |
| SPhysicsAssetEditorWindow.PhysicsAssetEditorState.ClearSelection | Mundi/Source/Slate/Windows/SPhysicsAssetEditorWindow.cpp:2327-2338 | every selection becomes -1/None and the shapes are marked for rebuild; the asset is untouched |
| SPhysicsAssetEditorWindow.PhysicsAssetEditorState.RemoveBody | Mundi/Source/Slate/Windows/SPhysicsAssetEditorWindow.cpp:2663-2692 | without an asset, with an out-of-range index or an empty slot nothing changes; otherwise exactly that body is removed along with every constraint naming its bone, the selection is cleared and the asset is marked dirty |
| SPhysicsAssetEditorWindow.PhysicsAssetEditorState.AddConstraintBetweenBodies | Mundi/Source/Slate/Windows/SPhysicsAssetEditorWindow.cpp:2883-2920 | equal, out-of-range or empty indices and an already joined pair (either order) change nothing; otherwise exactly one default constraint is appended and selected, the body selection is cleared and the asset is marked dirty |
| SPhysicsAssetEditorWindow.PhysicsAssetEditorState.DeleteSelectedShape | Mundi/Source/Slate/Windows/SPhysicsAssetEditorWindow.cpp:2340-2394 | without a selected in-range shape nothing changes; otherwise that one shape is removed, the body itself goes with its constraints once no sphere, box or capsule is left (convex elements do not count), and the selection is cleared |
| SViewerWindow.AncestryStep | Mundi/Source/Slate/Windows/SViewerWindow.cpp:667-673 | the rows expanded for a bone are the bone itself plus those expanded for its parent, and nothing else |
| SViewerWindow.AncestryInRange | Mundi/Source/Slate/Windows/SViewerWindow.cpp:667-673 | the walk up from a bone only meets the bone and bones before it, so it only expands bones of the skeleton |
| SViewerWindow.ExpandToSelectedBone | Mundi/Source/Slate/Windows/SViewerWindow.cpp:658-674 | for a loaded skeleton and an in-range bone, the bone and every ancestor up to the root are added to the expanded rows and none is removed; otherwise the expanded rows are unchanged; the skeleton is never changed |
| SViewerWindow.SViewerWindow.OpenNewTab | Mundi/Source/Slate/Windows/SViewerWindow.cpp:213-221 | when the tab state could not be created nothing changes; otherwise the state is appended and becomes the active tab, and the active index stays consistent with the tab list |
| SViewerWindow.SViewerWindow.CloseTab | Mundi/Source/Slate/Windows/SViewerWindow.cpp:223-231 | an out-of-range index changes nothing; otherwise exactly that tab is removed and the active index becomes the same index clamped to the last tab, or -1 when no tab is left |
| SceneManagerWidget.GetActorCategory | TL2/UI/Widget/SceneManagerWidget.cpp:650-666 | `Unknown` without an actor; otherwise the longest prefix of the actor's name that holds no `_`, ending right before the first `_` or at the end of the name |
| SceneManagerWidget.CategoryIndex | TL2/UI/Widget/SceneManagerWidget.cpp:670-677 | the index of the first category row with the given name, or -1 exactly when no such row exists |
| SceneManagerWidget.RowsOfSnoc | TL2/UI/Widget/SceneManagerWidget.cpp:694-708 | adding one actor adds its row to its own category only, at the end |
| SceneManagerWidget.AddActorAt | TL2/UI/Widget/SceneManagerWidget.cpp:694-708 | a placed actor's row goes to the end of the existing row of its category, or to a new visible, collapsed category appended last; no other row changes |
| SceneManagerWidget.AddActorGroups | TL2/UI/Widget/SceneManagerWidget.cpp:694-708 | placing one more actor keeps the tree grouping every actor under the single category row of its name, in actor order |
| SceneManagerWidget.RowsOfNone | TL2/UI/Widget/SceneManagerWidget.cpp:694-708 | a category without a row in the grouped tree has no actors |
| SceneManagerWidget.GroupedGroupsActors | TL2/UI/Widget/SceneManagerWidget.cpp:685-708 | grouping from an empty tree puts each non-null actor exactly once under the one category row of its name, in actor order, and skips null actors |
| SceneManagerWidget.WithCategoryVisibility | TL2/UI/Widget/SceneManagerWidget.cpp:710-727 | the visibility pass keeps the number of rows |
| SceneManagerWidget.CategoryVisibleIffChildVisible | TL2/UI/Widget/SceneManagerWidget.cpp:710-727 | after the visibility pass a category is visible if and only if one of its actor rows is, and nothing else about any row changes |
| SceneManagerWidget.AnyChildVisible | TL2/UI/Widget/SceneManagerWidget.cpp:716-723 | the inner search answers true exactly when some child row is visible |
| SceneManagerWidget.AllShowing | TL2/UI/Widget/SceneManagerWidget.cpp:752-759 | every child row keeps its actor and shows the new value |
| SceneManagerWidget.HideAllSets | TL2/UI/Widget/SceneManagerWidget.cpp:752-759 | every actor of the category gets the new hidden flag, and every other actor keeps its flag or its lack of one |
| SceneManagerWidget.USceneManagerWidget.ClearActorTree | TL2/UI/Widget/SceneManagerWidget.cpp:585-592 | the tree becomes empty and no actor's hidden flag changes |
| SceneManagerWidget.USceneManagerWidget.FindOrCreateCategoryNode | TL2/UI/Widget/SceneManagerWidget.cpp:668-683 | an existing category row is returned unchanged; otherwise a new one is appended last and returned; either way the returned row is a category of that name |
| SceneManagerWidget.USceneManagerWidget.PlaceActor | TL2/UI/Widget/SceneManagerWidget.cpp:699-707 | the tree after one loop step is AddActor of the tree before |
| SceneManagerWidget.USceneManagerWidget.BuildCategorizedHierarchy | TL2/UI/Widget/SceneManagerWidget.cpp:685-728 | without a world nothing changes; otherwise the tree is the grouped tree with category visibility derived from the actor rows |
| SceneManagerWidget.USceneManagerWidget.HandleCategorySelection | TL2/UI/Widget/SceneManagerWidget.cpp:730-741 | a category row's expansion flips and nothing else changes; any other row or index is left alone |
| SceneManagerWidget.USceneManagerWidget.HandleCategoryVisibilityToggle | TL2/UI/Widget/SceneManagerWidget.cpp:743-764 | a category row's visibility flips, each child row shows the new value and each child actor is hidden exactly when it is false; anything else is left alone |
| SceneManagerWidget.USceneManagerWidget.SetAllCategoriesExpanded | TL2/UI/Widget/SceneManagerWidget.cpp:827-849 | every category row takes the requested expansion and every other row and flag is unchanged |
| SceneManagerWidget.USceneManagerWidget.FindNodeByActor | TL2/UI/Widget/SceneManagerWidget.cpp:594-621 | nothing for a null actor; a found row shows the actor; nothing is found only when no root row and no child row shows it |
| SceneManagerWidget.ApplyCategoryVisibility | TL2/UI/Widget/SceneManagerWidget.cpp:710-727 | the visibility loop computes WithCategoryVisibility of the tree |
| SceneManagerWidget.ShowChildren | TL2/UI/Widget/SceneManagerWidget.cpp:752-759 | the child loop makes every row show the new value and sets every child actor's hidden flag to its negation |
| ClothComponent.RowVertices | Mundi/Source/Runtime/Engine/Components/ClothComponent.cpp:91-97 | one row holds w vertices, vertex x of row y sitting at column x and row y of the plane |
| ClothComponent.PlaneVerticesLength | Mundi/Source/Runtime/Engine/Components/ClothComponent.cpp:89-102 | the plane holds w * h vertices |
| ClothComponent.PlaneVertexAt | Mundi/Source/Runtime/Engine/Components/ClothComponent.cpp:89-102 | vertex y * w + x is the one in column x and row y |
| ClothComponent.PlaneVerticesAt | Mundi/Source/Runtime/Engine/Components/ClothComponent.cpp:89-102 | the plane holds w * h vertices stored row by row: vertex y * w + x is the one in column x and row y |
| ClothComponent.RowMasses | Mundi/Source/Runtime/Engine/Components/ClothComponent.cpp:99-100 | a row has one inverse mass per vertex, 0 in the top row and 1 in every other |
| ClothComponent.TopRowPinned | Mundi/Source/Runtime/Engine/Components/ClothComponent.cpp:89-102 | one inverse mass per vertex: exactly the first w vertices (the top row) are pinned with 0, every other vertex has 1 |
| ClothComponent.RowIndicesBounded | Mundi/Source/Runtime/Engine/Components/ClothComponent.cpp:107-123 | each quad of row y gives six triangle indices, all naming vertices of rows y and y + 1 |
| ClothComponent.PlaneIndicesBounded | Mundi/Source/Runtime/Engine/Components/ClothComponent.cpp:105-124 | a grid of quads by rows quads has 6 * quads * rows triangle indices, each naming one of its (quads + 1) * (rows + 1) vertices |
| ClothComponent.ISqrtBelow | Mundi/Source/Runtime/Engine/Components/ClothComponent.cpp:154 | the search result s satisfies s * s <= n < (s + 1) * (s + 1), the integer part of the square root |
| ClothComponent.ISqrt | Mundi/Source/Runtime/Engine/Components/ClothComponent.cpp:154 | the grid width read from the vertex count is the integer part of its square root |
| ClothComponent.ISqrtUnique | Mundi/Source/Runtime/Engine/Components/ClothComponent.cpp:154 | the integer part of a square root is unique, so ISqrt is the truncated square root the cast computes |
| ClothComponent.SquareLinksHasRight | Mundi/Source/Runtime/Engine/Components/ClothComponent.cpp:155-172 | the constraint loop links every vertex it treats as not last in its row to the next vertex |
| ClothComponent.CurtainLinksLeaveThePlane | Mundi/Source/Runtime/Engine/Components/ClothComponent.cpp:154-184 | for the curtain's 15 by 20 quads (336 vertices), the width read from the square root is 18, so the loop links vertex 335 to vertex 336, which does not exist, and vertex 15, the end of the first row, to vertex 16, the start of the second |
| ClothComponent.PlaneLinksJoinNeighbours | Mundi/Source/Runtime/Engine/Components/ClothComponent.cpp:154-184 | with the plane's real row width, every link joins two existing vertices that are neighbours: the next one in the same row, or the one below |
| ClothComponent.UClothComponent.CreateClothFromPlane | Mundi/Source/Runtime/Engine/Components/ClothComponent.cpp:82-125 | the previous mesh is dropped and replaced by the (gridSizeX + 1) * (gridSizeY + 1) plane vertices, their inverse masses and the triangles of its quads; a negative grid size leaves all three empty; the fabric is untouched |
| ClothComponent.UClothComponent.ReleaseCloth | Mundi/Source/Runtime/Engine/Components/ClothComponent.cpp:296-316 | the fabric is released and the mesh stays as it was |
| ClothComponent.UClothComponent.InitializeCloth | Mundi/Source/Runtime/Engine/Components/ClothComponent.cpp:127-205 | without vertices or indices nothing changes; otherwise the old fabric is released and, when the cloth system has a factory, a new one is built from the distance links of the vertex count; the mesh is untouched |
| ClothComponent.BuildPlane | Mundi/Source/Runtime/Engine/Components/ClothComponent.cpp:89-102 | the vertex loops produce exactly the plane's vertices and inverse masses |
| ClothComponent.BuildIndices | Mundi/Source/Runtime/Engine/Components/ClothComponent.cpp:105-124 | the index loops produce exactly the plane's triangle indices |
| ClothComponent.DistanceLinks | Mundi/Source/Runtime/Engine/Components/ClothComponent.cpp:154-184 | the constraint loop produces exactly the links of the square-width reading of the vertex count |
| Text.TruncateToInt | Mundi/Source/Runtime/Renderer/Material.cpp:292 | the cast drops the fraction towards zero: the result lies between 0 and the value, less than one away from it |
| Material.Overridden | Mundi/Source/Runtime/Renderer/Material.cpp:259-328 | the rebuilt information takes the value of every overridden SpecularExponent, IlluminationModel (truncated) and DiffuseColor, keeps the base's value for each one not overridden, keeps the base's name and texture file names, and equals the base without overrides |
| Material.OverriddenIdempotent | Mundi/Source/Runtime/Renderer/Material.cpp:259-328 | rebuilding the rebuilt information with the same overrides changes nothing: overrides set values rather than add to them |
| Material.WithScalarsStep | Mundi/Source/Runtime/Renderer/Material.cpp:271-295 | taking one more scalar name into the rebuilt information applies exactly that one override on top of the others |
| Material.WithVectorsStep | Mundi/Source/Runtime/Renderer/Material.cpp:297-320 | taking one more vector name into the rebuilt information applies exactly that one override on top of the others |
| Material.ApplyScalars | Mundi/Source/Runtime/Renderer/Material.cpp:271-295 | the scalar loop, in whatever order it walks the map, gives the information with every scalar override applied |
| Material.ApplyVectors | Mundi/Source/Runtime/Renderer/Material.cpp:297-320 | the vector loop, in whatever order it walks the map, gives the information with every vector override applied |
| Material.UMaterial.constructor | Mundi/Source/Runtime/Renderer/Material.cpp:9-13 | a new material has no shader and one empty texture entry per named slot |
| Material.UMaterial.Load | Mundi/Source/Runtime/Renderer/Material.cpp:16-38 | the path always becomes the material's name; a path containing `.dds` sets the shader and becomes the diffuse file name; one containing `.hlsl` sets the shader; any other path is an error that leaves the shader alone; nothing else changes |
| Material.UMaterial.GetTexture | Mundi/Source/Runtime/Renderer/Material.cpp:116-125 | the slot's texture, and none for a slot beyond the array |
| Material.UMaterial.HasTexture | Mundi/Source/Runtime/Renderer/Material.cpp:132-143 | a slot has a texture if and only if it is the diffuse or normal slot and that slot's file name is not empty |
| Material.UMaterial.SetTexture | Mundi/Source/Runtime/Renderer/Material.cpp:55-114 | the array grows to reach the slot; the slot then holds the loaded texture for a non-empty path and none for an empty one; a named slot's file name follows the path, so HasTexture holds exactly for a non-empty path; every other slot and file name is unchanged |
| Material.UMaterial.ResolveTextures | Mundi/Source/Runtime/Renderer/Material.cpp:145-166 | the array gets exactly one entry per named slot, each holding what loading its file name gives, or none when the name is empty |
| Material.UMaterial.SetMaterialInfo | Mundi/Source/Runtime/Renderer/Material.cpp:127-166 | the information is replaced and each named slot then holds the texture loaded from its new file name, or none when it has no texture |
| Material.UMaterialInstanceDynamic.Create | Mundi/Source/Runtime/Renderer/Material.cpp:175-188 | no instance for a missing parent or a parent that is itself a dynamic instance; otherwise a fresh instance of that material with nothing overridden and its cache out of date |
| Material.UMaterialInstanceDynamic.constructor | Mundi/Source/Runtime/Renderer/Material.cpp:205-209 | a new instance records its parent, overrides nothing and starts with its cache out of date |
| Material.UMaterialInstanceDynamic.GetShader | Mundi/Source/Runtime/Renderer/Material.cpp:211-219 | an instance's shader is always its parent's, none without a parent |
| Material.UMaterialInstanceDynamic.GetTexture | Mundi/Source/Runtime/Renderer/Material.cpp:221-238 | an overridden slot gives its override, even a null one; otherwise the parent's texture, or none without a parent |
| Material.UMaterialInstanceDynamic.HasTexture | Mundi/Source/Runtime/Renderer/Material.cpp:240-257 | an overridden slot always has a texture, even when the override is null and GetTexture gives none; otherwise exactly when the parent has one |
| Material.UMaterialInstanceDynamic.GetMaterialInfo | Mundi/Source/Runtime/Renderer/Material.cpp:259-328 | a clean cache is returned unchanged; a dirty one is rebuilt as Overridden of the parent's information with the current overrides and is clean afterwards |
| Material.UMaterialInstanceDynamic.CopyParametersFrom | Mundi/Source/Runtime/Renderer/Material.cpp:190-203 | nothing changes for a null source; otherwise all three override maps are copied from it and the cache is marked out of date; the parent is kept |
| Material.UMaterialInstanceDynamic.SetTextureParameterValue | Mundi/Source/Runtime/Renderer/Material.cpp:330-335 | the slot's override is set, so it reads back and has a texture; every other slot reads as before; the cache is not marked out of date |
| Material.UMaterialInstanceDynamic.SetVectorParameterValue | Mundi/Source/Runtime/Renderer/Material.cpp:337-341 | the named vector override is added or replaced and the cache is marked out of date |
| Material.UMaterialInstanceDynamic.SetScalarParameterValue | Mundi/Source/Runtime/Renderer/Material.cpp:343-347 | the named scalar override is added or replaced and the cache is marked out of date |
| Material.UMaterialInstanceDynamic.SetOverriddenTextureParameters | Mundi/Source/Runtime/Renderer/Material.cpp:349-353 | the texture overrides are replaced wholesale and the cache is marked out of date |
| Material.UMaterialInstanceDynamic.SetOverriddenScalarParameters | Mundi/Source/Runtime/Renderer/Material.cpp:355-359 | the scalar overrides are replaced wholesale and the cache is marked out of date |
| Material.UMaterialInstanceDynamic.SetOverriddenVectorParameters | Mundi/Source/Runtime/Renderer/Material.cpp:361-365 | the vector overrides are replaced wholesale and the cache is marked out of date |
| World.RemoveObjExtensionIsFileStem | TL2/World.cpp:169-191 | the base name holds no path separator; it is the text after the last `/` or `\` without a trailing `.obj` (case-sensitive), and the whole file name when there is no such suffix |
| World.RemoveObjExtensionOfEntry | TL2/World.cpp:169-191 | a mesh file `dir/stem.obj` gives the base name `stem` |
| World.RemoveObjExtensionOfOtherEntry | TL2/World.cpp:169-191 | a file `dir/name` whose name does not end in `.obj` keeps its whole name, other extensions included |
| World.UniqueActorNameInjective | TL2/World.cpp:104-111 | two generated names are equal only when made from the same type and the same number |
| World.NoUnderscoreAfter | TL2/World.cpp:108 | no underscore follows the one that separates the type from the number |
| World.BeforeGrows | TL2/World.cpp:339-344 | a later actor of the same base name is counted after more earlier actors of that base, so it gets a larger number |
| World.MaxOf | TL2/World.cpp:317 | the running maximum bounds every UUID given out and is one of them (0 for none) |
| World.Max3 | TL2/World.cpp:359 | the maximum of three values is at least each of them and equal to one of them |
| World.AdoptFileNextUUID | TL2/World.cpp:225-233 | the file's next UUID is applied only when it is larger than the counter, so the counter never goes down |
| World.AdoptedNext | TL2/World.cpp:225-233 | the adopted counter is at least its old value and at least the file's next UUID, and is one of the two |
| World.DrawUUIDs | TL2/World.cpp:236-357 | each UUID drawn by a spawn advances the counter by one with `uint32` wrap-around, so after `draws` draws it stands `draws` further on |
| World.DrawsKeepFileNext | TL2/World.cpp:225-360 | without wrap-around the counter after the draws is not below the file's next UUID |
| World.RaiseCounterPastLoad | TL2/World.cpp:356-360 | the counter ends at the largest of its value during the load, one past the largest UUID given out (wrapping as a `uint32`) and its value before the load; it never ends below either, and without wrap-around it lies above every UUID given out |
| World.UWorld.GenerateUniqueActorName | TL2/World.cpp:104-111 | the name is the type, `_` and the type's current counter, and that counter alone is then advanced by one |
| World.UWorld.DestroyActor | TL2/World.cpp:116-151 | true if and only if the actor is present in the list; then exactly its first entry is removed and the others keep their order; otherwise the list is unchanged |
| World.UWorld.CreateNewScene | TL2/World.cpp:193-209 | the scene has no actors and every type's numbering starts again at 0 |
| World.UWorld.SpawnPrimitives | TL2/World.cpp:284-347 | each loaded actor gets either its file UUID or its spawned one; with fresh spawns, the file UUID exactly when it is set and not used by an editor actor or an earlier loaded actor, so UUIDs are distinct and clash with no editor actor; each gets its base name numbered after the earlier actors of that base, and the counters count them |
| World.UWorld.LoadScene | TL2/World.cpp:211-361 | the counter is first raised to the file's next UUID when larger, then advanced once per UUID the spawns draw; it never goes down and ends at the largest of that value, one past the largest UUID given out, and its value before the load, so without wrap-around it ends at or above the file's next UUID; the actors are the spawned ones; UUIDs follow the reconciliation rule; names restart from zero per base and are pairwise distinct |
| World.IndexOf | TL2/World.cpp:134-135 | the first position of the actor in the list, or the list's length exactly when it is absent |
| World.MaxBelow | TL2/World.cpp:317 | every UUID given out fits in a `uint32`, and so does their maximum; without wrap-around one past it exceeds all of them |
| World.NamedInOrderStep | TL2/World.cpp:339-344 | naming the next actor with its base's current counter keeps every name its base numbered after the earlier actors of that base |
| World.NamesDistinct | TL2/World.cpp:339-344 | the names given during one load are pairwise distinct, whatever the counters were before it |
| World.CountedStep | TL2/World.cpp:104-111 | advancing the next actor's base counter keeps the counters equal to their start plus the actors counted so far |
| World.ReconcileStep | TL2/World.cpp:293-316 | one turn of the reconciliation loop, choosing the file UUID exactly when it is set, unused and not the actor's own spawned UUID, keeps the UUIDs reconciled |
| TargetActorTransformWidget.BaseNameNoExtIsFileStem | Mundi/Source/Slate/Widgets/TargetActorTransformWidget.cpp:246-274 | the display name holds no path separator; it is the file name after the last `/` or `\` less its last four characters when they spell `.obj` in any letter case, and the whole file name otherwise |
| TargetActorTransformWidget.BaseNameNoExtOfEntry | Mundi/Source/Slate/Widgets/TargetActorTransformWidget.cpp:252-266 | `dir/stem` followed by `.obj` in any letter case, such as `Data/Cube.OBJ`, is shown as `stem` |
| TargetActorTransformWidget.MarkComponentSubtreeVisited | Mundi/Source/Slate/Widgets/TargetActorTransformWidget.cpp:103-115 | the visited set only grows; a null or already visited component leaves it unchanged; otherwise the component is added, every added component is a descendant reached through unvisited components, and the additions are closed under taking attached children |
| TargetActorTransformWidget.ClosedHoldsDescendants | Mundi/Source/Slate/Widgets/TargetActorTransformWidget.cpp:103-115 | every descendant of the component reached along a path of components that were not visited before ends up in the visited set |
| PrimitiveSpawnWidget.BaseNameIsCaseSensitive | TL2/UI/Widget/PrimitiveSpawnWidget.cpp:27-45 | the spawn panel strips only a lower-case `.obj`, so `dir/stem.OBJ` is shown as `stem.OBJ`, while the transform panel shows it as `stem` |
| PrimitiveSpawnWidget.DefaultMeshIsCube | TL2/UI/Widget/PrimitiveSpawnWidget.cpp:156-157 | the default mesh path `Data/Cube.obj` has the base name `Cube`, so the second test for the cube never decides anything the first missed |
| PrimitiveSpawnWidget.GetPrimitiveTypeName | TL2/UI/Widget/PrimitiveSpawnWidget.cpp:76-83 | type 0 is named `StaticMesh` and every other index `Unknown` |
| PrimitiveSpawnWidget.FirstWhere | TL2/UI/Widget/PrimitiveSpawnWidget.cpp:154-161 | the index of the first accepted element, with every earlier one rejected, or -1 exactly when no element is accepted |
| PrimitiveSpawnWidget.MeshChoiceIsListedOrDefault | TL2/UI/Widget/PrimitiveSpawnWidget.cpp:346-363 | an in-range selection spawns the selected mesh named after its base name; otherwise the default cube mesh named `StaticMesh`; either way the name's base holds no path separator |
| PrimitiveSpawnWidget.Repeated | TL2/UI/Widget/PrimitiveSpawnWidget.cpp:346-358 | every spawned actor of a round gets the same mesh |
| PrimitiveSpawnWidget.NumberedNames | TL2/UI/Widget/PrimitiveSpawnWidget.cpp:361-364 | the k-th actor of a round is named after the base with the number its counter held plus k |
| PrimitiveSpawnWidget.NumberedNamesDistinct | TL2/UI/Widget/PrimitiveSpawnWidget.cpp:361-364 | the names given in one spawn round are pairwise distinct |
| PrimitiveSpawnWidget.UPrimitiveSpawnWidget.ClampNumberOfSpawn | TL2/UI/Widget/PrimitiveSpawnWidget.cpp:193-194 | the spawn count is kept between 1 and 100: an input in range is kept, a smaller one becomes 1 and a larger one 100 |
| PrimitiveSpawnWidget.UPrimitiveSpawnWidget.RefreshMeshList | TL2/UI/Widget/PrimitiveSpawnWidget.cpp:133-162 | the cached list becomes the resource list; an existing selection is kept; without one the first cube mesh of the list is selected, or -1 when there is none |
| PrimitiveSpawnWidget.UPrimitiveSpawnWidget.SpawnActors | TL2/UI/Widget/PrimitiveSpawnWidget.cpp:316-380 | nothing without a world; otherwise one attempt per count; the actors the attempts produced join the world's actor list in order, the success count is their number, each gets the chosen mesh and the next name of the chosen base, and that base's counter alone advances by the success count |
| ContentBrowserWindow.IconOfExtensionFollowsTable | Mundi/Source/Slate/Windows/ContentBrowserWindow.cpp:318-343 | a lower-case extension gets the icon of its group (mesh, image, shader, sound, material, data) and `[FILE]` for any extension outside the groups |
| ContentBrowserWindow.IconFollowsTable | Mundi/Source/Slate/Windows/ContentBrowserWindow.cpp:307-344 | a directory shows `[DIR]` whatever its extension; a file shows the icon of its lower-cased extension, `[FILE]` when unknown |
| ContentBrowserWindow.IconIgnoresCase | Mundi/Source/Slate/Windows/ContentBrowserWindow.cpp:315-316 | the icon does not depend on the letter case of the extension |
| ContentBrowserWindow.UpperCaseFbxIsMesh | Mundi/Source/Slate/Windows/ContentBrowserWindow.cpp:315-321 | a file ending in `.FBX` shows the mesh icon |
| ContentBrowserWindow.UnitFor | Mundi/Source/Slate/Windows/ContentBrowserWindow.cpp:352-356 | the chosen unit is the largest of B, KB, MB, GB not exceeding the size: the size is at least 1024^u and, below GB, under 1024^(u+1) |
| ContentBrowserWindow.FormatFileSize | Mundi/Source/Slate/Windows/ContentBrowserWindow.cpp:346-361 | the text is the size divided by 1024 to the power of the chosen unit, formatted with two decimals, a space and the unit's name |
| ContentBrowserWindow.CellsFit | Mundi/Source/Slate/Windows/ContentBrowserWindow.cpp:189-192 | as many columns as the truncated width-over-cell quotient never overflow the window width |
| ContentBrowserWindow.ColumnOfPosition | Mundi/Source/Slate/Windows/ContentBrowserWindow.cpp:196-214 | an entry at row `q` and column `r` of a grid with `columns` columns has position modulo `columns` equal to `r` |
| ContentBrowserWindow.UContentBrowserWindow.constructor | Mundi/Source/Slate/Windows/ContentBrowserWindow.cpp:11-17 | a new browser has 80-unit thumbnails and four columns |
| ContentBrowserWindow.UContentBrowserWindow.RenderContentGrid | Mundi/Source/Slate/Windows/ContentBrowserWindow.cpp:185-218 | the column count is the number of whole cells that fit the width when that is above 1, and 1 otherwise (so at least 1); when above 1 the cells stay inside the width; entry `i` stays on the same line exactly when `i + 1` is not a multiple of the column count |
| Sequences.RemoveAll | TL2/Actor.cpp:156 | `TArray::Remove` keeps exactly the items other than the one removed, and never lengthens the list |
| Sequences.RemoveAllKeepsDistinct | TL2/Actor.cpp:156 | removing an item from a duplicate-free list leaves it duplicate-free |
| Sequences.RemoveAllOfAppended | TL2/Actor.cpp:156 | removing an item just appended to a list that did not hold it gives the list back |
| Actor.AddOwned | TL2/Actor.cpp:111-136 | a null or already owned component changes nothing; otherwise it becomes owned, a scene component is listed and becomes the root when there was none, an existing root is kept, and a non-scene component leaves the list and root alone |
| Actor.RemoveOwned | TL2/Actor.cpp:138-163 | a null or unowned component changes nothing; otherwise it is no longer owned, a scene component is no longer listed (every other listed one stays) and no longer the root, and any other root is kept |
| Actor.AddOwnedKeepsValid | TL2/Actor.cpp:111-136 | adding a component keeps the scene list duplicate-free, owned, complete and holding the root |
| Actor.RemoveOwnedKeepsValid | TL2/Actor.cpp:138-163 | removing a component keeps the same consistency |
| Actor.AddThenRemove | TL2/Actor.cpp:111-163 | adding an unowned component and removing it again restores the owned set, the scene list and the root exactly |
| Actor.AddOwnedIdempotent | TL2/Actor.cpp:119-122 | adding a component twice is adding it once |
| Actor.SetTransformSetsAndMarksOnChange | TL2/Actor.cpp:212-230 | with a root the actor ends at the new transform; the partition is marked dirty exactly when the transform changed and a partition manager is reachable; without a root nothing changes; no other component's own transform changes |
| Actor.SetLocationSetsAndMarksOnChange | TL2/Actor.cpp:232-256 | the location is set, rotation and scale are kept, and the partition is marked exactly on a change |
| Actor.SetRotationSetsAndMarksOnChange | TL2/Actor.cpp:272-289 | the rotation is set, location and scale are kept, and the partition is marked exactly on a change |
| Actor.SetScaleSetsAndMarksOnChange | TL2/Actor.cpp:291-309 | the scale is set, location and rotation are kept, and the partition is marked exactly on a change |
| Actor.SettersIdempotent | TL2/Actor.cpp:212-304 | setting the same value a second time changes nothing, so the partition hears of it once |
| Actor.AfterDestroy | TL2/Actor.cpp:68-90 | the guard refuses a second destroy and changes nothing; otherwise the actor is pending destruction, handed to the world exactly when there is one, and without a world left with no components and no root |
| Actor.DestroyTwice | TL2/Actor.cpp:70-75 | destroying twice is destroying once |
| Actor.DestroyKeepsValid | TL2/Actor.cpp:68-90 | destroying keeps the component bookkeeping consistent |
| Actor.AActor.constructor | TL2/Actor.cpp:13-29 | a new actor owns no component, has no root, is not pending destruction and is consistent |
| Actor.AActor.SetRootComponent | TL2/Actor.cpp:94-109 | the same root again changes nothing; otherwise the root is replaced |
| Actor.AActor.AddOwnedComponent | TL2/Actor.cpp:111-136 | the actor's new state is the one `AddOwned` describes |
| Actor.AActor.RemoveOwnedComponent | TL2/Actor.cpp:138-163 | the actor's new state is the one `RemoveOwned` describes |
| Actor.AActor.ClearSceneComponentCaches | TL2/Actor.cpp:201-205 | the scene list is empty and there is no root |
| Actor.AActor.MarkPartitionDirty | TL2/Actor.cpp:252-256 | the partition manager hears of the actor exactly when it has a world with one |
| Actor.AActor.Destroy | TL2/Actor.cpp:68-90 | the new state and outcome are those of `AfterDestroy`; when handed to the world, the world's actor list loses this actor once, and otherwise it is unchanged |
| Actor.AActor.SetActorTransform | TL2/Actor.cpp:212-225 | the new state is that of `WithTransform` with the partition reachable exactly when there is a world with a partition manager |
| Actor.AActor.SetActorLocation | TL2/Actor.cpp:232-245 | the new state is that of `WithLocation` |
| Actor.AActor.SetActorRotation | TL2/Actor.cpp:272-284 | the new state is that of `WithRotation` |
| Actor.AActor.SetActorScale | TL2/Actor.cpp:291-304 | the new state is that of `WithScale` |

## Left out

- File and operating-system I/O:
  - reading header files and writing generated files;
  - scene files;
  - directory listing in the content browser;
  - the resource manager's loading. What a load returns is a parameter.
- The Jinja rendering engine. Each template is modelled as the text it
  renders to.
- Python's `str(float)` is a parameter. So is the C `%.2f` formatting used
  by `FormatFileSize`.
- `header_parser` and the `is_abstract` attribute are not part of this
  model.
  - `is_derived_from` is modelled as a walk up a map of parent names.
  - Abstractness is a parameter.
- Rendering, device and GPU calls are not modelled:
  - Direct3D;
  - PhysX;
  - the cloth solver;
  - ImGui drawing.
  - Renderer device calls are recorded in a log, and the batch upload is a
    parameter.
- Floating-point rounding. Floats are reals. Square roots in the cloth set-up are exact integer roots of the vertex count.
- Random transforms and logging in `PrimitiveSpawnWidget`.
  - Whether each spawn attempt produced an actor is given.
  - The actor `SpawnActor` creates is given as an id. How the world builds it is not modelled; appending it to the world's actor list is.
- `World`:
  - `SpawnActor`, the scene loader's parsing, UI calls and partition calls are parameters or left out.
  - Signed 32-bit counter overflow in actor names is not modelled.
- `Actor`:
  - Registration, `SetOwner`, `EndPlay`, `DeleteObject` and the default sub-objects the constructor creates are left out.
  - Euler-angle rotation, the add-location and add-rotation helpers and `DuplicateSubObjects` are left out. They need matrix and quaternion arithmetic.
  - `FTransform`, `FVector` and `FQuat` are not part of this model. They are compared by exact equality, with identity defaults.
- `Sequences.RemoveAll`: the `TArray` container is not part of this model. Its `Remove` is taken to remove every occurrence of the item, as Unreal's `TArray::Remove` does.
- `WorldPartition`: `BulkRegister`, `Query` and the debug drawing are left out.
- `Octree`: `BulkInsert` and the `Debug*` drawing functions are left out.
- `InputManager`:
  - The cursor position, mouse deltas, screen size, stick and trigger values and dead-zone processing are left out. They are floating-point window queries.
  - Vibration is left out. It is a device call.
- Particle payloads are not modelled: positions, velocities, colours and sizes, which are floating point.
  - `Tick`, the modules' `PreSpawn` and `PostSpawn` bodies and serialisation bytes are left out.
  - The kill receiver's distance ordering is a parameter.
- `Material`: what the resource manager loads for a texture or shader path is a parameter (`load`). Shader compilation is left out.
- `ContentBrowserWindow`: the window width and the item spacing are reals. No `float` rounding is modelled in the column count.
- `SViewerWindow.ExpandToSelectedBone`: requires each parent index to be below its bone's own index. The source walks the chain without a bound, and on a cyclic parent table its walk would not end.
- `RagdollStats`: signed 32-bit structure counts are modelled as unbounded integers. Only the unsigned 64-bit byte counts wrap.
- Joint frames of constraints (positions and rotations) are not modelled. The `PhysicsAsset` records carry lengths, masses and angles only.
- Lower: Python's `str.lower()` is Unicode-aware (`'É'` becomes `'é'`, and `'İ'` becomes two characters); the model lower-cases ASCII capitals only. The C++ callers use `tolower`, which the model matches.
- Strip: Python's `str.strip()` and the regular expressions' `\s` also match non-ASCII white space such as U+00A0; the model's white space is ASCII only.
- StripSlice: the same ASCII-only white space as `Strip`.
- IsSpace: the regular expressions' `\s` and Python's `str.strip()` also match non-ASCII white space; the model's white space is ASCII only.
- IsWordChar: the regular expressions' `\w` also matches non-ASCII letters and digits; the model's word characters are ASCII only.
- ParseFloat: Python's `float()` also accepts exponent forms (`1e3`, `1E-3`), `inf`, `nan`, digit-group underscores (`1_0`) and non-ASCII digits. The model reads only optionally signed decimals (`12`, `1.5`, `.5`, `3.`) and treats every other bound as one `float()` rejects.
- RangeBoundsMeaning: because of `ParseFloat`, a range whose bound uses an exponent, `inf`, `nan` or an underscore is modelled as a failure, where the generator reads it.
- PropertyOfMeaning: the same gap as `RangeBoundsMeaning` for a property whose range bound uses such a form.
- PropertiesOfMeaning: the same gap as `RangeBoundsMeaning`; the property list stops at such a range.
- ParseProperties: the same gap; the scan stops at a range such as `Range="0,1e3"`, which the generator reads.
- ParseHeader: the same gap; a header with such a range bound is modelled as failing.
- Identity: the index table holds unbounded integers. The source stores `uint16` entries, which repeat slots past 65536 (see "Findings": `StoredIndicesWrap`). The model's table is the intended one.
- Resize: the table it builds is `Identity`, so the 16-bit wrap past 65536 slots is not modelled. Nor is the `int32` overflow of the block size for very large buffers.
- Alloc: `MemBlockSize` is an unbounded integer, so the truncation to `int32` of the data size plus twice the index count (Mundi/Source/Runtime/Engine/Particles/ParticleDefinitions.cpp:16) for very large layouts is not modelled.
- Grow: the same; the `int32` overflow of `MaxActiveParticles * 2` is not modelled either.
- GrownIsPermutation: holds for the unbounded table; the source's 16-bit table is a permutation only up to 65536 slots.
- SpawnParticles: its `Valid()` permutation rests on the unbounded table; past 65536 slots the source's table is not a permutation.
- SpawnOne: the same as `SpawnParticles`.
- SpawnParticlesKeepingLive: the corrected growth also uses the unbounded table.
- SpawnOneKeepingLive: the same as `SpawnParticlesKeepingLive`.
- SetTransformSetsAndMarksOnChange: the attachment hierarchy (`AttachParent`, `AttachChildren` and relative transforms) is not part of this model. The map holds each component's own transform. When the root moves, attached children move with it in the world, which the model does not show. The same holds for `SetLocationSetsAndMarksOnChange`, `SetRotationSetsAndMarksOnChange` and `SetScaleSetsAndMarksOnChange`.
- SetupBoneHierarchy: both `USkeletalMeshComponent::SetupBoneHierarchy` and `FRagdollSystem::SetupBoneHierarchy` are modelled only for skeletons listed parents first (each parent index below its bone's index). That is the engine's skeleton order. The source's `while` walk also handles any acyclic parent table listed in another order.
- SkeletonParents: the same parents-first requirement as `SetupBoneHierarchy`.
- FindMappedAncestor: the same parents-first requirement; the source walk needs only an acyclic table.
- Octree: `Split`, `Insert`, `Redistribute`, `Remove`, `Update` and `Clear` are modelled as functions on tree values, not as in-place updates of `FOctree` nodes with a `Children[8]` pointer array. The model therefore does not capture in-place erasure and appending in the `Actors` arrays, updates of the `ActorLastBounds` map through the root, or aliasing between nodes.
- FreshHandleIsNew: the handle counter is the source's `size_t`, modelled as an unbounded `nat`. In the source a handle is new only until `NextHandle` wraps after 2^64 calls to `Add` or `AddDynamic`; the model does not capture that wrap.

## Findings

| source | as written | input that shows it | evidently intended | confidence | as-written member | corrected member |
|---|---|---|---|---|---|---|
| Mundi/Source/Runtime/Engine/Particles/ParticleEmitterInstance.cpp:101,139-148 | when the buffer is full, spawning grows it with `Resize`, which sets `ActiveParticles` to 0, so every live particle is dropped | 4 live particles in a buffer of 4, spawn 1: afterwards 1 particle is live instead of 5 | growing the buffer keeps the live particles and their index order | not executed | ParticleEmitter.SpawnWhenFullDropsLive | ParticleEmitter.FParticleEmitterInstance.SpawnParticlesKeepingLive |
| Mundi/Source/Runtime/Engine/Particles/ParticleEmitterInstance.cpp:277-323 | the snapshot copies `ActiveParticles * ParticleStride` bytes of data, but the live indices can name any slot below `MaxActiveParticles` | spawn 2 particles, kill particle 0: the only live index is slot 1, and only slot 0's bytes are copied | copy the data of every slot, or compact it, so each live index lands inside the copied data | not executed | ParticleEmitter.KillThenSnapshot | ParticleEmitter.FParticleEmitterInstance.GetDynamicDataAllSlots |
| Mundi/Source/Runtime/Engine/Particles/ParticleEmitterInstance.cpp:145-151 | the spawn loop writes the new particle at raw slot `ActiveParticles`, while every reader reaches live particle `k` through `ParticleIndices[k]` (lines 209 and 272) | spawn 2 particles, kill particle 0, spawn 1: the new particle is written into slot 1 over the live particle there, and live position 1 names slot 0, the killed particle's stale data | write the new particle into slot `ParticleIndices[ActiveParticles]`, which no live particle holds | not executed | ParticleEmitter.KillThenSpawnOverwrites | ParticleEmitter.FParticleEmitterInstance.SpawnOneKeepingLive |
| Mundi/Source/Runtime/AssetManagement/SkeletalMesh.cpp:167-168 | the generated constraint stores the parent bone in `ConstraintBone1`; the component passes Bone1's body as `Body1` (SkeletalMeshComponent.cpp:720-730), which `InitConstraint` treats as the child (ConstraintInstance.cpp:70-72), so the joint sits at the parent's origin | bones `root` and `arm`, with `arm`'s parent `root`: the constraint has Bone1 = `root` and Bone2 = `arm` | Bone1 is the child and Bone2 the parent, as documented in ConstraintInstance.h:39-44 | not executed | SkeletalMesh.GeneratedConstraintNamesParentFirst | SkeletalMesh.UnrealOrderChildFirst |
| Mundi/Source/Runtime/Engine/Components/ClothComponent.cpp:154-184 | `InitializeCloth` takes the grid width as the integer square root of the vertex count, which is the true row width only for square grids | the curtain's 15 by 20 quads give 16 by 21 = 336 vertices and a width of 18: vertex 335 is linked to 336, which does not exist, and vertex 15 to vertex 16 across a row end | links use the plane's real row width `GridSizeX + 1` | not executed | ClothComponent.CurtainLinksLeaveThePlane | ClothComponent.PlaneLinksJoinNeighbours |
| Mundi/Source/Runtime/Engine/Particles/ParticleEmitterInstance.cpp:94-98 | `ParticleIndices` holds `uint16` entries (ParticleEmitterInstance.h:23), yet the spawn loop (lines 141-144) keeps doubling the buffer past 65536 slots and `Resize` writes `ParticleIndices[i] = i` for every slot | keep spawning into the initial 100-slot buffer: each time it is full it doubles, and after ten doublings it has 102400 slots, where entry 65536 is stored as 0, the same slot as entry 0 | the index table lists every slot once (wider indices, or a capacity cap of 65536) | not executed | ParticleEmitter.StoredIndicesWrap | ParticleEmitter.Identity |
