/**
 The compiled process definition and the running instance: the vocabulary shared by the graph
 rewrite, the gateway search, the stores and the advance protocol.
 A definition is a map from node id to node, so a node carries no second copy of its id.
 */
module ProcessModel {
  import opened Wrappers

  type NodeId = string
  type InstanceId = string
  type TokenId = string
  type Variables = map<string, string>

  datatype NodeType =
    | Start
    | End
    | UserTask
    | ExclusiveGateway
    | ParallelFork
    | ParallelJoin
    | ExternalTask(taskType: string)
    | OtherNode(kind: string)

  datatype EdgeCondition =
    | VariableEq(key: string, value: string)
    | Expression(expr: string)
    | Default

  datatype Edge = Edge(target: NodeId, condition: Option<EdgeCondition>)

  datatype Node = Node(nodeType: NodeType, edges: seq<Edge>)

  datatype Definition = Definition(nodes: map<NodeId, Node>)

  datatype InstanceState = Running | Completed | Terminated

  datatype TokenStatus = Created | Ready | Executing | Waiting | Suspended | Completed | Terminated

  datatype TokenMode = Forward | Compensation

  datatype Token = Token(
    id: TokenId, nodeId: NodeId, status: TokenStatus, mode: TokenMode,
    version: nat, attempt: nat, parallelGroupId: Option<string>, updatedAt: Option<int>)

  datatype ProcessInstance = ProcessInstance(
    id: InstanceId, processDefId: string, tenantId: Option<string>, tokens: seq<Token>,
    variables: Variables, state: InstanceState, version: nat)

  /** Completed and Terminated tokens are finished for good. */
  predicate Terminal(s: TokenStatus) {
    s.Completed? || s.Terminated?
  }

  /** There is an edge from a to b between two nodes of the definition. */
  ghost predicate Linked(def: Definition, a: NodeId, b: NodeId) {
    && a in def.nodes && b in def.nodes
    && exists e :: e in def.nodes[a].edges && e.target == b
  }

  /** A path is a non-empty walk along edges, staying on nodes of the definition. */
  ghost predicate IsPath(def: Definition, p: seq<NodeId>) {
    && p != []
    && (forall i :: 0 <= i < |p| ==> p[i] in def.nodes)
    && (forall i :: 0 < i < |p| ==> Linked(def, p[i - 1], p[i]))
  }
}
