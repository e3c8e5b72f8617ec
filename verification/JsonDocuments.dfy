/** Documents as the strict JSON reader delivers them: no floats and no duplicate keys. */
module JsonDocuments {
  datatype Json =
    | Null
    | Boolean(truth: bool)
    | Integer(number: int)
    | Text(text: string)
    | List(items: seq<Json>)
    | Object(fields: map<string, Json>)
}
