/** The objects the controller and the firewall agent share: the LBPort resource and the
    protocols a Service may name. */
module Api {

  /** `Unset` is the empty protocol string, which every reader treats as TCP.  A Service may
      also ask for SCTP; the LBPort schema admits only TCP and UDP. */
  datatype Protocol = Unset | TCP | UDP | SCTP

  function Normalized(p: Protocol): Protocol {
    if p == Unset then TCP else p
  }

  datatype LBPortSpec = LBPortSpec(
    port: int, protocol: Protocol, nodes: seq<string>, owner: string, allowPrivileged: bool)

  datatype LBPort = LBPort(name: string, labels: map<string, string>, spec: LBPortSpec)

  /** The node list entry that stands for every node. */
  const ALL_NODES := "*"

  /** The agent's reading of a node list. */
  predicate AppliesToNode(nodes: seq<string>, nodeName: string) {
    exists i :: 0 <= i < |nodes| && (nodes[i] == ALL_NODES || nodes[i] == nodeName)
  }

  /** The agent serves a list exactly if it has the node's name or a star. */
  lemma AppliesMeaning(nodes: seq<string>, nodeName: string)
    ensures AppliesToNode(nodes, nodeName) <==> "*" in nodes || nodeName in nodes
  {
  }
}
