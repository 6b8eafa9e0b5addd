# Azure architecture diagram generator — verified model of its core

The system turns a free-text description of an Azure architecture into a
diagram. A language model translates the text into a small JSON
intermediate form (a label, resources, relationships, clusters). The
diagram server then builds a graph from it: cluster boxes, one node per
resource and one arrow per relationship. When the graph toolkit cannot
be used, a fallback server instead draws a plain figure showing the
description wrapped to 60 columns.

This project models, in Dafny, the parts of that pipeline that are
logic rather than plumbing:

- `ir.dfy` (module `ArchitectureIr`) holds the intermediate form and the
  decoded JSON value (`JsonValue`: an object read as an architecture, or
  a value of another type). Each string that may be missing (a label, a
  name, a type, an endpoint, a relation) is an `Option`. The `.get(key,
  default)` defaults are in `LabelOf`, `ClusterNameOf`, `ResourceNameOf`
  and `ResourceTypeOf`. A resource's `attributes` is a plain map, and
  the four lists are plain sequences, so an absent one reads as empty.
- `registry.dfy` (module `Registry`) holds the type table
  `AZURE_NODE_MAP`, which maps twelve `Azure.*` type ids to node kinds,
  and the lookup that falls back to `AppServices`.
- `translator.dfy` (module `Translator`) models
  `process_text_with_azure_openai`:
  - without credentials it returns the fixed demo architecture;
  - otherwise it takes the outcome of the request as a parameter;
  - if the whole answer does not decode, it repairs it by slicing from
    the first `{` to the last `}` with Python's `find`, `rfind` and
    slice semantics;
  - every error it raises is mapped to the text of its exception.
- `renderer.dfy` (module `Renderer`) models `generate_diagram_from_json`
  as a method:
  - one loop builds the cluster objects and the resource→cluster map, one
    the node dictionary, one the edge list;
  - each loop is proved against a function of the input prefix;
  - lemmas state what the finished diagram promises: last write wins,
    node keys, placement, edge filtering and defaults.
- `fallback.dfy` (module `Fallback`) models `generate_simple_diagram`:
  - `str.split()` and the first 100 words;
  - the greedy wrap loop, with its `current_line` accumulator;
  - the draw loop, which shows at most ten lines and then an ellipsis.

  The wrap is specified by a function (`Fill`, `Groups`, `Lines`) that
  groups the words of each line. The method is proved to compute exactly
  those lines. The lemmas give the layout properties: no word lost or
  split, the width bound, greediness, and where the one possible blank
  line sits.

The outside world enters as parameters:
- the configured API key and endpoint (`Config`);
- the HTTP outcome (`Reply`: timed out, or a status, response text and
  message content);
- the JSON decoder, `parse: string -> Option<JsonValue>`, which gives
  `None` where `json.loads` raises. Otherwise it gives the decoded value,
  which may be a list, a string, a number or null rather than an object;
- whether the diagram library imported (`diagramsAvailable`).

A diagram is modelled as the builder's own dictionaries rather than the
drawing or its image bytes:
- a title;
- `cluster_objects`: cluster name → index of the cluster object;
- `nodes`: node name → kind and optional cluster index;
- the edge list.

A fallback figure is its title, its texts in drawing order, and its
format.

## Model

| member | source | states |
|---|---|---|
| Registry.Lookup | azure_diagram_server_fixed.py:47-61 | a listed type id yields the node kind whose table key is that id; any other string yields `AppServices` |
| Registry.LookupTypeId | azure_diagram_server_fixed.py:47-61 | every node kind has a key in the table, and looking that key up gives the kind back |
| Registry.TableInverse | azure_diagram_server_fixed.py:47-61 | every table entry's kind maps back to its own key, so no two keys share a kind |
| Registry.TableNamespace | azure_diagram_server_fixed.py:47-61 | every key of the table starts with `Azure.` |
| Registry.LookupDefault | azure_diagram_server_fixed.py:233-235 | the lookup yields `AppServices` exactly for unlisted types and for `Azure.WebApp`, the default a resource without `type` gets |
| ArchitectureIr.LabelOf | azure_diagram_server_fixed.py:213 | the diagram title is the document's "diagram_label", or "Azure Architecture" when it has none |
| ArchitectureIr.ClusterNameOf | azure_diagram_server_fixed.py:224 | a cluster's name is its "name", or "Cluster" when it has none |
| ArchitectureIr.ResourceNameOf | azure_diagram_server_fixed.py:232 | a resource's name is its "name", or "Resource" when it has none |
| ArchitectureIr.ResourceTypeOf | azure_diagram_server_fixed.py:233 | a resource's type is its "type", or "Azure.WebApp" when it has none |
| Translator.IsSet | azure_diagram_server_fixed.py:68 | a credential counts as set exactly when it is neither unset nor the empty string |
| Translator.Configured | azure_diagram_server_fixed.py:68 | the demo is skipped exactly when neither the API key nor the endpoint is unset or empty |
| Translator.Demo | azure_diagram_server_fixed.py:70-103 | the demo is labelled "Sample Web App Architecture"; it has resources "Web App" of type Azure.WebApp and "SQL Database" of type Azure.SQLDatabase, one relationship Web App → SQL Database, and one cluster "Resource Group 1" listing both |
| Translator.Message | azure_diagram_server_fixed.py:174-200 | every failure except the timeout is re-raised with the "Error calling Azure OpenAI API: " prefix (:176, :192 through :200), and the timeout (:197) is not; a failed request's message ends with the response text |
| Translator.RequestFailedMessage | azure_diagram_server_fixed.py:176 | two failed requests with the same message had the same response text |
| Translator.Find | azure_diagram_server_fixed.py:187 | `str.find`: -1 exactly when the character is absent, otherwise the index of its first occurrence |
| Translator.RFind | azure_diagram_server_fixed.py:188 | `str.rfind`: -1 exactly when the character is absent, otherwise the index of its last occurrence |
| Translator.FirstIndex | azure_diagram_server_fixed.py:187 | a position holding the character with none before it is what `find` returns |
| Translator.LastIndex | azure_diagram_server_fixed.py:188 | a position holding the character with none after it is what `rfind` returns |
| Translator.Slice | azure_diagram_server_fixed.py:190 | Python's `content[start:end]`: `end - start` characters taken from `start` on, none when the end lies before the start |
| Translator.ExtractJson | azure_diagram_server_fixed.py:186-192 | the repair fails with "Failed to extract JSON" exactly when the content lacks a `{` or lacks a `}` |
| Translator.ExtractBetween | azure_diagram_server_fixed.py:187-190 | when the first `{` precedes the last `}`, the candidate is the contiguous slice from that first `{` through that last `}` inclusive; it starts with `{` and ends with `}` |
| Translator.ExtractReversed | azure_diagram_server_fixed.py:187-190 | when the last `}` comes before the first `{`, the slice is empty, as Python's slicing gives |
| Translator.Translate | azure_diagram_server_fixed.py:68-200 | no key or no endpoint gives the demo object; a configured request that times out fails with the timeout error; a reply with a status other than 200 fails with that reply's text; a result comes only from a 200 reply whose whole content, or whose repaired candidate, decodes to it; a content that decodes whole, to an object or to any other value, is returned as is without repair; the extract error occurs exactly for a configured 200 reply whose content does not decode and lacks a `{` or a `}`; a repaired candidate that does not decode fails with that candidate, and only then |
| Translator.RepairUsesBraces | azure_diagram_server_fixed.py:182-192 | a configured 200 reply whose content does not decode whole is decoded from exactly the text between its first `{` and last `}`, and otherwise fails with that text as the undecodable candidate |
| Renderer.AssignSpec | azure_diagram_server_fixed.py:228-229 | assigning a cluster's member list maps every listed name to that cluster and leaves every other entry as it was |
| Renderer.ClusterMappingDomain | azure_diagram_server_fixed.py:223-229 | a name is in the resource→cluster map exactly when some cluster lists it |
| Renderer.ClusterMappingLastWins | azure_diagram_server_fixed.py:223-229 | a name listed by several clusters maps to the name of the last cluster that lists it, and a nameless cluster is called "Cluster" |
| Renderer.ClusterObjectsSpec | azure_diagram_server_fixed.py:223-226 | a cluster object exists for a name exactly when some cluster has that name, and it is the last cluster with that name |
| Renderer.MappingTargetsExist | azure_diagram_server_fixed.py:237-239 | every cluster named in the resource→cluster map has a cluster object, so the lookup at line 239 cannot fail |
| Renderer.NodeKeys | azure_diagram_server_fixed.py:231-242 | the node keys are exactly the resource names, a nameless resource being called "Resource" |
| Renderer.NodesLastWins | azure_diagram_server_fixed.py:231-242 | the node under a name is the one built from the last resource with that name |
| Renderer.NodeCount | azure_diagram_server_fixed.py:231-242 | with distinct resource names there is one node per resource |
| Renderer.EdgesConcat | azure_diagram_server_fixed.py:244-248 | the edges of two relationship lists one after the other are the edges of the first followed by those of the second |
| Renderer.EdgesSpec | azure_diagram_server_fixed.py:244-248 | an edge is produced exactly when some relationship names it by source and target and both name nodes; every edge joins two nodes |
| Renderer.EdgesJoinNames | azure_diagram_server_fixed.py:247-248 | every edge produced joins two of the node names |
| Renderer.EdgesAllResolve | azure_diagram_server_fixed.py:244-248 | when every relationship resolves, there is one edge per relationship, in relationship order |
| Renderer.DiagramOf | azure_diagram_server_fixed.py:213-248 | the title is the label or "Azure Architecture"; the node keys are exactly the resource names; every edge joins two nodes |
| Renderer.GenerateDiagramFromJson | azure_diagram_server_fixed.py:207-248 | without the diagram library it fails with "diagrams library is not available. Please install it."; a decoded value that is not an object fails at the first `.get` with Python's "'<type>' object has no attribute 'get'"; otherwise the clusters, nodes and edges it builds in its loops are exactly the specified diagram |
| Renderer.CreateClusters | azure_diagram_server_fixed.py:221-229 | the loop over clusters builds exactly the specified cluster objects and resource→cluster map |
| Renderer.CreateNodes | azure_diagram_server_fixed.py:231-242 | the loop over resources builds exactly the specified node dictionary |
| Renderer.CreateEdges | azure_diagram_server_fixed.py:244-248 | the loop over relationships keeps exactly the relationships whose endpoints are node keys, in order |
| Renderer.DiagramPlacement | azure_diagram_server_fixed.py:237-242 | a node sits in a cluster exactly when its name is mapped to one, and then in a cluster object bearing the mapped name |
| Renderer.DiagramNodeKind | azure_diagram_server_fixed.py:232-242 | the node under a name has the looked-up kind of the last resource with that name; an unlisted or missing type gives `AppServices` |
| Renderer.LastWithName | azure_diagram_server_fixed.py:231-242 | every node name has a last resource declaring it |
| Renderer.NodeAndEdgeCounts | azure_diagram_server_fixed.py:231-248 | distinct resource names and resolving relationships give one node per resource and one edge per relationship |
| Renderer.DemoClusters | azure_diagram_server_fixed.py:97-229 | the demo's one cluster yields a single cluster object and maps both resources to it |
| Renderer.DemoDiagram | azure_diagram_server_fixed.py:68-248 | without credentials the pipeline's diagram is titled "Sample Web App Architecture" and has an `AppServices` and an `SQLDatabases` node in the one cluster, joined by one edge Web App → SQL Database |
| Fallback.SpaceChars | fallback_mcp_server_fixed.py:48 | the space, tab and line breaks separate words; no visible ASCII character does; every separator lies at or below U+3000 |
| Fallback.WordEnd | fallback_mcp_server_fixed.py:48 | the length of the leading run of non-space characters |
| Fallback.Words | fallback_mcp_server_fixed.py:48 | `str.split()` yields non-empty words free of whitespace, and none at all exactly for a blank string |
| Fallback.WordsSplitAt | fallback_mcp_server_fixed.py:48 | every whitespace character separates words: splitting `s`, one whitespace character and `t` gives the words of `s` followed by the words of `t` |
| Fallback.SplitJoin | fallback_mcp_server_fixed.py:48-56 | splitting words joined by single spaces gives the same words back |
| Fallback.FirstWords | fallback_mcp_server_fixed.py:48-50 | the words laid out are whitespace-free and non-empty |
| Fallback.FirstWordsSpec | fallback_mcp_server_fixed.py:48-50 | the words laid out are the first min(n, 100) of the description's n words: all of them when there are at most 100, exactly 100 otherwise, and none for a blank description |
| Fallback.WrapDescription | fallback_mcp_server_fixed.py:47-61 | the wrap loop with its `current_line` accumulator produces exactly the specified greedy lines of the first 100 words |
| Fallback.WrapKeepsWords | fallback_mcp_server_fixed.py:50-61 | each line splits back into its group of words, and the groups together are the words in order |
| Fallback.WrapJoin | fallback_mcp_server_fixed.py:50-61 | the non-empty lines joined by single spaces are the words joined by single spaces: no word is lost, reordered or split |
| Fallback.WrapWidth | fallback_mcp_server_fixed.py:51-58 | a line of two or more words is at most 60 characters long; only a single word makes a line longer |
| Fallback.WrapGreedy | fallback_mcp_server_fixed.py:51-53 | each line but the last, followed by a space and the next line's first word, is longer than 60 characters |
| Fallback.WrapBlankLine | fallback_mcp_server_fixed.py:51-58 | a line is empty exactly when it is the first and the first word has 60 or more characters |
| Fallback.LaterLinesNotBlank | fallback_mcp_server_fixed.py:51-58 | no line after the first is empty |
| Fallback.WrapEmpty | fallback_mcp_server_fixed.py:60-61 | there are no lines exactly when there are no words |
| Fallback.WrapStepBreak | fallback_mcp_server_fixed.py:51-53 | a word that does not fit closes the current line and becomes the new current line |
| Fallback.WrapStepAppend | fallback_mcp_server_fixed.py:54-58 | a word that fits is appended after a space, or becomes the current line when that is empty |
| Fallback.BlankDescription | fallback_mcp_server_fixed.py:48-61 | an empty or whitespace-only description produces no lines |
| Fallback.GenerateSimpleDiagram | fallback_mcp_server_fixed.py:21-70 | the figure has the fallback title, the three captions, then the first at most 10 wrapped lines, then "..." exactly when more than 10 lines were produced; at most 14 texts |

## Left out

- The prompt, the HTTP POST to the Azure OpenAI deployment and its 30-second timeout are network I/O. The request's outcome is the `Reply` parameter.
- `json.loads` is a library call. It is the `parse` parameter. The model fixes no grammar. A decoded value that is not an object is carried only by its Python type name. The model does not cover an object whose fields have other types than the intermediate form's: a list entry that is not an object, a non-string name or type, or a non-list where a list is expected.
- Translator.Message: the text of an undecodable candidate's error is a placeholder. `process_text_with_azure_openai` forwards the JSON decoder's own message, which depends on the decoder.
- Three paths into the catch-all at azure_diagram_server_fixed.py:196-198 are not modelled: a 200 reply whose body is not JSON (`response.json()` at :178), a 200 reply without `choices[0].message.content` (a `KeyError` at :179), and request errors other than a timeout (connection failures and the like). In the server each is reported with the API-error prefix. The model's `Reply` is either a timeout or an answer that always carries a decoded content, so none of these arises.
- Renderer.GenerateDiagramFromJson: the temporary directory, the Graphviz rendering and the read-back of the image bytes are not modelled. The result is the abstract diagram. With it go the `output_format` and `layout_direction` arguments, which only reach the renderer.
- Renderer.GenerateDiagramFromJson: the result records the `cluster_objects` and `nodes` dictionaries, not what the library draws. The two differ in two ways:
  - Every `node_class(resource_name)` call draws a node. So resources with duplicate names each get a box, while `nodes` keeps only the last one.
  - The library adds a `Cluster` to the drawing only when a node is created inside it. A cluster none of whose members names a resource is not drawn, yet `cluster_objects` lists it. A cluster whose name a later entry reuses is never entered either, and `cluster_objects` keeps only the later one.
- Renderer.GenerateDiagramFromJson: the `diagramsAvailable` flag models the guard at azure_diagram_server_fixed.py:207-208 as the function is written. In the program that guard cannot take effect. If an import at :17-27 fails, the classes stay unbound, and building `AZURE_NODE_MAP` at :47-59 stops the module with a `NameError` before any call. A missing Graphviz shows up only during rendering, which is not modelled.
- Fallback.GenerateSimpleDiagram: the matplotlib drawing, the border lines, the text coordinates (the `y_pos` steps of 0.03), font sizes and the encoding into image bytes are not modelled. The figure records only its title, its texts in order and its format.
- Fallback.IsSpace: whitespace is the set of code points Python's `str.isspace` accepts. The model works on `char` values, with no Unicode database beyond that list.
- The MCP tool wrappers `generate_azure_diagram_from_text`, base64 encoding, `load_dotenv` and logging are plumbing around the modelled functions.
- The HTTP servers, environment and health scripts, and test drivers are not part of this model.
