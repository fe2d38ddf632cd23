/**
 * The decoded YAML tree the renderer walks.  Like yaml.v3's `yaml.Node`,
 * every node has a kind, a textual value (set on scalars) and a flat list of
 * children: a document holds its single root, a mapping holds its keys and
 * values interleaved ([k1, v1, k2, v2, ...]), a sequence holds its items.
 */
module Yaml {

  datatype Kind = DocumentNode | SequenceNode | MappingNode | ScalarNode | AliasNode

  datatype Node = Node(kind: Kind, value: string, content: seq<Node>)

  function Scalar(v: string): Node { Node(ScalarNode, v, []) }

  function Mapping(content: seq<Node>): Node { Node(MappingNode, "", content) }

  function Document(root: Node): Node { Node(DocumentNode, "", [root]) }
}
