/** The tables of the Route 1 deployment, and what acceptance means for them. */
module Route1Tables {
  import opened Json
  import opened Provenance
  import opened ProvenanceChain

  const SERVICE := "obc-comm-csp-stack.service"

  const DROPINS := [
    DropIn("57-csp-socketcan-canfd.conf",
           "[Service]\nEnvironment=COMM_CSP_SOCKETCAN_USE_CANFD=1\n" +
           "Environment=COMM_CSP_SOCKETCAN_CANFD_DEST_ALLOWLIST=5,6\n" +
           "Environment=COMM_CSP_SOCKETCAN_CANFD_DPORT_ALLOWLIST=40\n"),
    DropIn("58-target-beacon-baseline.conf", "[Service]\nEnvironment=UHF_BEACON_CSP_NODE=6\n")
  ]

  const INPUTS := map[
    "bin/payload_camera_backend_helper" := "build-fprime-automatic-native/bin/Linux/payload_camera_backend_helper",
    "bin/csp_zmqproxy" := "build-fprime-automatic-native/bin/Linux/csp_zmqproxy",
    "bin/eps_simulator" := "build-fprime-automatic-native/bin/Linux/eps_simulator",
    "bin/adcs_simulator" := "build-fprime-automatic-native/bin/Linux/adcs_simulator",
    "bin/radio_mock_server" := "build-fprime-automatic-native/bin/Linux/radio_mock_server",
    "dict/AppTopologyDictionary.json" := "build-artifacts/Linux/OBC/dict/AppTopologyDictionary.json",
    "meta/version.json" := "build-fprime-automatic-native/versions/version.json",
    "bin/OBC" := "build-artifacts/Linux/OBC/bin/OBC"
  ]

  const ROUTE1 := Deployment(SERVICE, DROPINS, INPUTS)

  lemma Packaged()
    ensures "bin/OBC" in ROUTE1.inputs && "bin/radio_mock_server" in ROUTE1.inputs
  {
    assert "bin/OBC" in INPUTS;
    assert "bin/radio_mock_server" in INPUTS;
  }

  /** On an accepted Route 1 target both running programs execute exactly what the marker recorded at build
    * time. */
  lemma BothProgramsAsBuilt(x: Case, order: seq<string>, r: Json)
    requires x.tables == ROUTE1 && Accepted(x, order) && FileOrder(x, order)
    requires TreeRead(x) && r in Processes(x).items
    ensures Runs(r, ReleasePath(x) + "/bin/OBC") ==> Get(r, "executableSha256") == Get(MarkerInputs(x), "bin/OBC")
    ensures Runs(r, ReleasePath(x) + "/bin/radio_mock_server") ==>
              Get(r, "executableSha256") == Get(MarkerInputs(x), "bin/radio_mock_server")
  {
    Packaged();
    hide *;
    OneObcAsBuilt(x, order);
    HashesChain(x, order, "bin/radio_mock_server");
  }
}
