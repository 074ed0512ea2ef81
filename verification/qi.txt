(error "failed to open file 'pl2.smt2'")
