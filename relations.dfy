/**
  The ATOMIC if-then relation types the commonsense builder asks COMET for
  (`valid_relation_types`: "xIntent", "xNeed", "xAttr", "xWant", "xReact",
  "xEffect"); its relation dictionaries are keyed by them.
*/
module Relations {

  datatype Relation = XIntent | XNeed | XAttr | XWant | XReact | XEffect
}
