/** File names in the vault. */
module Names {

  predicate Hidden(name: string) {
    name != "" && name[0] == '.'
  }

  predicate EndsInMd(name: string) {
    |name| >= 3 && name[|name| - 3..] == ".md"
  }
}
