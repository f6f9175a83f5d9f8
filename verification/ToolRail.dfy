// The Tool Rail: which Tools may run, and which wait for a Confirmation (rails/tool_rail.py).
module ToolRail {
  import opened Common
  import opened Json

  datatype ToolConfig = ToolConfig(name: string, description: string, inputSchema: Json,
                                   mcpEndpoint: Option<string>, requiresConfirmation: bool, enabled: bool)

  datatype Decision = Allow | RequireConfirmation | Deny

  function Decide(name: string, tools: seq<ToolConfig>): Decision {
    if tools == [] then Deny
    else if tools[0].name == name then
      if !tools[0].enabled then Deny
      else if tools[0].requiresConfirmation then RequireConfirmation
      else Allow
    else Decide(name, tools[1..])
  }

  // `i` is the first entry named `name`.
  predicate IsFirst(name: string, tools: seq<ToolConfig>, i: nat) {
    i < |tools| && tools[i].name == name && forall j :: 0 <= j < i ==> tools[j].name != name
  }

  // The first entry alone decides: a disabled first entry denies even when a later one is enabled.
  lemma {:induction false} FirstMatchDecides(name: string, tools: seq<ToolConfig>)
    ensures Decide(name, tools) == Allow
            <==> exists i: nat :: IsFirst(name, tools, i) && tools[i].enabled && !tools[i].requiresConfirmation
    ensures Decide(name, tools) == RequireConfirmation
            <==> exists i: nat :: IsFirst(name, tools, i) && tools[i].enabled && tools[i].requiresConfirmation
  {
    if tools != [] {
      if tools[0].name == name {
        assert IsFirst(name, tools, 0);
        assert forall i: nat :: IsFirst(name, tools, i) ==> i == 0;
      } else {
        var rest := tools[1..];
        FirstMatchDecides(name, rest);
        forall i: nat
          ensures IsFirst(name, tools, i + 1) <==> IsFirst(name, rest, i)
        {
          if IsFirst(name, tools, i + 1) {
            assert forall j :: 0 <= j < i ==> rest[j] == tools[j + 1];
          }
        }
        if i: nat :| IsFirst(name, tools, i) { assert i > 0 && IsFirst(name, rest, i - 1) && rest[i - 1] == tools[i]; }
        if i: nat :| IsFirst(name, rest, i) { assert IsFirst(name, tools, i + 1) && rest[i] == tools[i + 1]; }
        forall i: nat | IsFirst(name, tools, i) ensures i > 0 && rest[i - 1] == tools[i] { }
      }
    }
  }
}
