/** process.go: the main package's copies of the JSON helpers of geo/process.go. */
module ViaProcess {
  import opened Wrappers
  import opened GeoTypes
  import GeoProcess

  /** `dump_matrix_to_json`: the node list under the key `"sources"`; it parses back. */
  function DumpMatrixToJson(nodes: seq<int>): (json: string)
    ensures GeoProcess.SourcesKey <= json
    ensures GeoProcess.ParseMatrixJson(json) == Some(nodes)
  {
    GeoProcess.MatrixJsonRoundTrip(nodes);
    GeoProcess.MatrixToJson(nodes)
  }

  /** `parse_json_matrix`: the decoded coordinates, or the decoder's error behind the
      `"JSON parsing error: "` prefix. */
  function ParseJsonMatrix(unmarshal: string -> Result<seq<Coord>, string>, matrix: string)
    : (r: Result<seq<Coord>, string>)
    ensures unmarshal(matrix).Success? ==> r == Success(unmarshal(matrix).value)
    ensures unmarshal(matrix).Failure? ==>
      r.Failure? && r.error == GeoProcess.JsonParsingError + unmarshal(matrix).error
  {
    GeoProcess.ParseJsonMatrix(unmarshal, matrix)
  }
}
